/** The text transformations applied before a MarkdownV2 send
    (escapeMarkdown and sanitizeText, Bot.js:1241-1251). */
module Markdown {
  import opened Base

  /** The characters escapeMarkdown prefixes with a backslash. The set is
      hard-coded in the bot; it matches the reserved characters of the
      Telegram Bot API's MarkdownV2 style, but not the backslash itself. */
  const SpecialChars: string := "_*[]()~`>#+-=|{}.!"

  /** Membership in SpecialChars, written out character by character. */
  predicate IsSpecial(c: char)
  {
    || c == '_' || c == '*' || c == '[' || c == ']' || c == '(' || c == ')'
    || c == '~' || c == '`' || c == '>' || c == '#' || c == '+' || c == '-'
    || c == '=' || c == '|' || c == '{' || c == '}' || c == '.' || c == '!'
  }

  lemma IsSpecialIsMembership(c: char)
    ensures IsSpecial(c) <==> c in SpecialChars
  {
  }

  /** Number of special characters in `s`. */
  function CountSpecial(s: string): nat
  {
    if s == [] then 0 else (if IsSpecial(s[0]) then 1 else 0) + CountSpecial(s[1..])
  }

  /** One input character as the global regular-expression replacement
      writes it: a backslash is inserted before a special character. */
  function EscapeChar(c: char): string
  {
    if IsSpecial(c) then ['\\', c] else [c]
  }

  /** `escapeMarkdown(text)`: every special character gets one backslash in
      front of it; every other character, the backslash included, is kept. */
  function EscapeMarkdown(text: string): (r: string)
    ensures |r| == |text| + CountSpecial(text)
    ensures text == [] <==> r == []
    ensures text != [] ==> r[0] == (if IsSpecial(text[0]) then '\\' else text[0])
  {
    if text == [] then [] else EscapeChar(text[0]) + EscapeMarkdown(text[1..])
  }

  /** `s.replace(/\\n/g, '\n')`: scanning left to right, every two-character
      sequence backslash, `n` that does not overlap an earlier one becomes a
      newline character. */
  function ReplaceNewlineMarkers(s: string): (r: string)
    ensures |r| <= |s|
    ensures NoNewlineMarker(r)
    ensures r != [] && s != [] ==> r[0] == (if StartsWithMarker(s) then '\n' else s[0])
    ensures s == [] <==> r == []
  {
    if StartsWithMarker(s) then "\n" + ReplaceNewlineMarkers(s[2..])
    else if s == [] then []
    else [s[0]] + ReplaceNewlineMarkers(s[1..])
  }

  predicate StartsWithMarker(s: string)
  {
    |s| >= 2 && s[0] == '\\' && s[1] == 'n'
  }

  /** No backslash in `s` is followed by `n`. */
  predicate NoNewlineMarker(s: string)
  {
    forall i | 0 <= i < |s| - 1 :: !(s[i] == '\\' && s[i + 1] == 'n')
  }

  /** `sanitizeText(text)`: escape first, then turn the newline markers of
      the escaped text into newlines. */
  function SanitizeText(text: string): string
  {
    ReplaceNewlineMarkers(EscapeMarkdown(text))
  }

  /** The inverse of escaping: a backslash followed by a special character
      is dropped, every other character is kept. */
  function Unescape(t: string): string
  {
    if |t| >= 2 && t[0] == '\\' && IsSpecial(t[1]) then [t[1]] + Unescape(t[2..])
    else if t == [] then []
    else [t[0]] + Unescape(t[1..])
  }

  /** Removing the inserted backslashes restores the input; in particular
      escaping loses no information. */
  lemma {:induction false} UnescapeEscape(s: string)
    ensures Unescape(EscapeMarkdown(s)) == s
  {
    if s != [] {
      var rest := EscapeMarkdown(s[1..]);
      UnescapeEscape(s[1..]);
      if IsSpecial(s[0]) {
        assert EscapeMarkdown(s) == ['\\', s[0]] + rest;
        assert (['\\', s[0]] + rest)[2..] == rest;
      } else {
        assert EscapeMarkdown(s) == [s[0]] + rest;
        assert ([s[0]] + rest)[1..] == rest;
        if s[0] == '\\' && s[1..] != [] {
          // the next output character is a backslash (inserted) or a plain character
          assert rest[0] == '\\' || !IsSpecial(rest[0]);
        }
      }
    }
  }

  /** The inserted backslashes are not special themselves, so escaping keeps
      the number of special characters. */
  lemma {:induction false} EscapeKeepsSpecialCount(s: string)
    ensures CountSpecial(EscapeMarkdown(s)) == CountSpecial(s)
  {
    if s != [] {
      EscapeKeepsSpecialCount(s[1..]);
      CountSpecialAppend(EscapeChar(s[0]), EscapeMarkdown(s[1..]));
      assert !IsSpecial('\\');
      if IsSpecial(s[0]) {
        assert ['\\', s[0]][1..] == [s[0]];
      }
    }
  }

  lemma {:induction false} CountSpecialAppend(a: string, b: string)
    ensures CountSpecial(a + b) == CountSpecial(a) + CountSpecial(b)
  {
    if a == [] {
      assert a + b == b;
    } else {
      assert (a + b)[1..] == a[1..] + b;
      CountSpecialAppend(a[1..], b);
    }
  }

  /** Escaping is not idempotent: escaping again changes every text that has
      a special character. This is why the retry loop must escape the
      original text on every attempt, never the text of an earlier one. */
  lemma EscapeNotIdempotent(s: string)
    requires CountSpecial(s) > 0
    ensures EscapeMarkdown(EscapeMarkdown(s)) != EscapeMarkdown(s)
  {
    EscapeKeepsSpecialCount(s);
  }

  /** Escaping never creates or destroys a newline marker: converting the
      markers after escaping (as sanitizeText does) is the same as
      converting the markers of the input and then escaping. So exactly the
      input's backslash-`n` pairs become newlines. */
  lemma {:induction false} SanitizeConvertsInputMarkers(s: string)
    ensures SanitizeText(s) == EscapeMarkdown(ReplaceNewlineMarkers(s))
  {
    if s != [] {
      if StartsWithMarker(s) {
        var u := s[2..];
        assert s == "\\n" + u;
        SanitizeConvertsInputMarkers(u);
        SanitizeMarkerStep(u);
      } else {
        var c, t := s[0], s[1..];
        assert s == [c] + t;
        SanitizeConvertsInputMarkers(t);
        SanitizeCharStep(c, t);
      }
    }
  }

  /** One step of the induction: the input starts with a newline marker. */
  lemma SanitizeMarkerStep(u: string)
    ensures SanitizeText("\\n" + u) == "\n" + SanitizeText(u)
    ensures EscapeMarkdown(ReplaceNewlineMarkers("\\n" + u))
         == "\n" + EscapeMarkdown(ReplaceNewlineMarkers(u))
  {
    EscapeCons('n', u);
    assert "\\n" + u == ['\\'] + (['n'] + u);
    EscapeCons('\\', ['n'] + u);
    assert EscapeMarkdown("\\n" + u) == "\\n" + EscapeMarkdown(u);
    ReplaceMarkerCons(EscapeMarkdown(u));
    ReplaceMarkerCons(u);
    EscapeCons('\n', ReplaceNewlineMarkers(u));
  }

  /** One step of the induction: the input does not start with a marker. */
  lemma SanitizeCharStep(c: char, t: string)
    requires !StartsWithMarker([c] + t)
    ensures SanitizeText([c] + t) == EscapeChar(c) + SanitizeText(t)
    ensures EscapeMarkdown(ReplaceNewlineMarkers([c] + t))
         == EscapeChar(c) + EscapeMarkdown(ReplaceNewlineMarkers(t))
  {
    ReplaceCons(c, t);
    EscapeCons(c, ReplaceNewlineMarkers(t));
    if IsSpecial(c) {
      SanitizeSpecialCons(c, t);
    } else {
      SanitizePlainCons(c, t);
    }
  }

  lemma SanitizeSpecialCons(c: char, t: string)
    requires IsSpecial(c)
    ensures SanitizeText([c] + t) == ['\\', c] + SanitizeText(t)
  {
    var et := EscapeMarkdown(t);
    EscapeCons(c, t);
    assert EscapeMarkdown([c] + t) == ['\\'] + ([c] + et);
    ReplaceCons('\\', [c] + et);
    ReplaceCons(c, et);
  }

  lemma SanitizePlainCons(c: char, t: string)
    requires !IsSpecial(c) && !StartsWithMarker([c] + t)
    ensures SanitizeText([c] + t) == [c] + SanitizeText(t)
  {
    var et := EscapeMarkdown(t);
    EscapeCons(c, t);
    assert EscapeMarkdown([c] + t) == [c] + et;
    ReplaceCons(c, et);
  }

  lemma EscapeCons(c: char, t: string)
    ensures EscapeMarkdown([c] + t) == EscapeChar(c) + EscapeMarkdown(t)
  {
    assert ([c] + t)[1..] == t;
  }

  lemma ReplaceCons(c: char, t: string)
    requires !(c == '\\' && t != [] && t[0] == 'n')
    ensures ReplaceNewlineMarkers([c] + t) == [c] + ReplaceNewlineMarkers(t)
  {
    assert ([c] + t)[1..] == t;
  }

  lemma ReplaceMarkerCons(t: string)
    ensures ReplaceNewlineMarkers("\\n" + t) == "\n" + ReplaceNewlineMarkers(t)
  {
    assert ("\\n" + t)[2..] == t;
  }

  /** How Telegram reads MarkdownV2 text as plain characters (Telegram Bot
      API, "Formatting options", MarkdownV2 style): a backslash followed by a
      character of code 1 to 126 stands for that character; a reserved
      character without a backslash is markup. `None`: the text is not read
      as plain characters (it holds markup, or a backslash this reading does
      not decide). */
  function ReadLiteral(t: string): Option<string>
  {
    if t == [] then Some([])
    else if t[0] == '\\' then
      if |t| >= 2 && 1 <= t[1] as int <= 126 then Prepend(t[1], ReadLiteral(t[2..])) else None
    else if IsSpecial(t[0]) then None
    else Prepend(t[0], ReadLiteral(t[1..]))
  }

  function Prepend(c: char, o: Option<string>): Option<string>
  {
    if o.None? then None else Some([c] + o.value)
  }

  /** A text without backslashes, once escaped, reads as exactly that text:
      every reserved character arrives as itself. */
  lemma {:induction false} EscapedReadsLiterally(s: string)
    requires forall i | 0 <= i < |s| :: s[i] != '\\'
    ensures ReadLiteral(EscapeMarkdown(s)) == Some(s)
  {
    if s != [] {
      var rest := EscapeMarkdown(s[1..]);
      EscapedReadsLiterally(s[1..]);
      if IsSpecial(s[0]) {
        assert EscapeMarkdown(s) == ['\\', s[0]] + rest;
        assert (['\\', s[0]] + rest)[2..] == rest;
      } else {
        assert EscapeMarkdown(s) == [s[0]] + rest;
        assert ([s[0]] + rest)[1..] == rest;
      }
      assert [s[0]] + s[1..] == s;
    }
  }

  /** The backslash is not escaped. So a backslash of the text that follows
      no other backslash and comes before a reserved character escapes the
      backslash inserted in front of that character, and the reserved
      character is left as markup: the escaped text is not read as plain
      characters. (Whether Telegram then refuses it depends on the markup it
      forms; a sanitized send of it may fail.) */
  lemma BackslashBeforeReservedIsMarkup(s: string, i: nat)
    requires i + 1 < |s| && s[i] == '\\' && IsSpecial(s[i + 1])
    requires i == 0 || s[i - 1] != '\\'
    ensures ReadLiteral(EscapeMarkdown(s)) == None
  {
    var a, c, u := s[..i], s[i + 1], s[i + 2..];
    assert s == a + (['\\'] + ([c] + u));
    MarkupAfter(a, c, u);
  }

  /** The escaped text of `a`, a backslash, a reserved character and `u` is
      not read as plain characters, when `a` does not end in a backslash. */
  lemma MarkupAfter(a: string, c: char, u: string)
    requires a == [] || a[|a| - 1] != '\\'
    requires IsSpecial(c)
    ensures ReadLiteral(EscapeMarkdown(a + (['\\'] + ([c] + u)))) == None
  {
    var b := ['\\'] + ([c] + u);
    EscapedPair(c, u);
    if a == [] {
      assert a + b == b;
    } else {
      var ea, eb := EscapeMarkdown(a), EscapeMarkdown(b);
      EscapeAppend(a, b);
      EscapeLast(a);
      assert ea[|ea| - 1] != '\\';
      ReadNoneAfter(ea, eb);
    }
  }

  /** A backslash and a reserved character escape to a text that is not
      read as plain characters, whatever follows. */
  lemma EscapedPair(c: char, u: string)
    requires IsSpecial(c)
    ensures ReadLiteral(EscapeMarkdown(['\\'] + ([c] + u))) == None
  {
    EscapeCons('\\', [c] + u);
    EscapeCons(c, u);
    var eb := EscapeMarkdown(['\\'] + ([c] + u));
    assert eb == ['\\', '\\', c] + EscapeMarkdown(u);
    assert eb[2..] == [c] + EscapeMarkdown(u);
  }

  lemma {:induction false} EscapeAppend(a: string, b: string)
    ensures EscapeMarkdown(a + b) == EscapeMarkdown(a) + EscapeMarkdown(b)
  {
    if a == [] {
      assert a + b == b;
    } else {
      assert (a + b)[1..] == a[1..] + b;
      EscapeAppend(a[1..], b);
    }
  }

  /** Escaping keeps the last character. */
  lemma {:induction false} EscapeLast(a: string)
    requires a != []
    ensures EscapeMarkdown(a) != [] && EscapeMarkdown(a)[|EscapeMarkdown(a)| - 1] == a[|a| - 1]
  {
    if |a| > 1 {
      EscapeLast(a[1..]);
    }
  }

  /** Text that does not end in a backslash cannot rescue what follows it:
      when the rest is not read as plain characters, neither is the whole. */
  lemma {:induction false} ReadNoneAfter(p: string, q: string)
    requires p == [] || p[|p| - 1] != '\\'
    requires ReadLiteral(q) == None
    ensures ReadLiteral(p + q) == None
    decreases |p|
  {
    if p != [] {
      var t := p + q;
      assert t[0] == p[0];
      if p[0] == '\\' {
        assert |p| >= 2 && t[1] == p[1];
        if 1 <= p[1] as int <= 126 {
          assert t[2..] == p[2..] + q;
          ReadNoneAfter(p[2..], q);
        }
      } else if !IsSpecial(p[0]) {
        assert t[1..] == p[1..] + q;
        ReadNoneAfter(p[1..], q);
      }
    } else {
      assert p + q == q;
    }
  }
}
