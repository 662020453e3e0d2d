/** The per-chat conversation history of generateText (Bot.js:1136,
    1175-1201). Before each exchange a fixed opening user turn is pushed onto
    the chat's history array. The Gemini chat session is then started on
    that same array: it keeps the array by reference and, when the answer
    has a candidate, pushes the user's message and the candidate's content
    onto it. When the reply can be read, the bot pushes it once more and
    stores the array. What Gemini answered is an input. */
module History {
  import opened Base

  datatype Role = User | Model

  /** One `{ role, parts }` entry; the parts are read as their joined text. */
  datatype Turn = Turn(role: Role, text: string)

  /** The fixed user turn pushed on every exchange, "سلام، شروع کن."
      ("hello, begin."). */
  const OpeningText: string :=
    "\U{0633}\U{0644}\U{0627}\U{0645}\U{060C} \U{0634}\U{0631}\U{0648}\U{0639} \U{06A9}\U{0646}."

  const Opening: Turn := Turn(User, OpeningText)

  /** What `chatSession.sendMessage(userInput)` and `result.response.text()`
      came to: a readable reply; an answer with a candidate whose text cannot
      be read (`text()` throws, after the session has recorded the exchange);
      or no answer with a candidate (`sendMessage` throws, or the prompt was
      blocked), which the session does not record. */
  datatype Answer = Answered(reply: string) | Unreadable(content: string) | NoAnswer

  /** One generateText call: the user's input and what Gemini answered. */
  datatype Call = Call(input: string, answer: Answer)

  /** `chatHistory`: chat id to history array. */
  type Histories = map<ChatId, seq<Turn>>

  /** `chatHistory.get(chatId) || []`. */
  function Stored(h: Histories, chat: ChatId): seq<Turn>
  {
    if chat in h then h[chat] else []
  }

  /** The entries one call pushes onto the array, in order: the bot's opening
      turn, the session's user and model turns when there is a candidate, and
      the bot's own model turn when the reply was read. */
  function Pushed(c: Call): (t: seq<Turn>)
    ensures t != [] && t[0] == Opening
    ensures |t| == (match c.answer case Answered(_) => 4 case Unreadable(_) => 3 case NoAnswer => 1)
  {
    match c.answer
    case Answered(r) => [Opening, Turn(User, c.input), Turn(Model, r), Turn(Model, r)]
    case Unreadable(m) => [Opening, Turn(User, c.input), Turn(Model, m)]
    case NoAnswer => [Opening]
  }

  /** The table after one generateText call. A readable reply stores the
      array with everything pushed onto it. Otherwise `chatHistory.set` is not
      reached: an existing history still gains the pushes, because the table
      holds the very array that was pushed onto; a chat without a history
      still has none. */
  function AfterExchange(h: Histories, chat: ChatId, c: Call): (r: Histories)
    ensures forall d | d != chat :: (d in r <==> d in h) && (d in h ==> r[d] == h[d])
    ensures c.answer.Answered? ==>
      && chat in r
      && r[chat] == Stored(h, chat) + [Opening, Turn(User, c.input), Turn(Model, c.answer.reply), Turn(Model, c.answer.reply)]
    ensures c.answer.Unreadable? ==>
      && (chat in r <==> chat in h)
      && (chat in h ==> r[chat] == h[chat] + [Opening, Turn(User, c.input), Turn(Model, c.answer.content)])
    ensures c.answer.NoAnswer? ==> (chat in r <==> chat in h) && (chat in h ==> r[chat] == h[chat] + [Opening])
  {
    if c.answer.Answered? then h[chat := Stored(h, chat) + Pushed(c)]
    else if chat in h then h[chat := h[chat] + Pushed(c)]
    else h
  }

  /** The pushes of a run of calls, concatenated. */
  function Transcript(calls: seq<Call>): seq<Turn>
  {
    if calls == [] then [] else Pushed(calls[0]) + Transcript(calls[1..])
  }

  /** The table after a run of calls of one chat. */
  function Exchanges(h: Histories, chat: ChatId, calls: seq<Call>): Histories
    decreases |calls|
  {
    if calls == [] then h else Exchanges(AfterExchange(h, chat, calls[0]), chat, calls[1..])
  }

  /** The shape every stored history keeps: it opens with the
      opening turn, and every user turn that is not the opening turn comes
      right after one. */
  predicate Ordered(t: seq<Turn>)
  {
    && t != [] && t[0] == Opening
    && forall i | 0 < i < |t| && t[i].role == User && t[i] != Opening :: t[i - 1] == Opening
  }

  ghost predicate AllOrdered(h: Histories)
  {
    forall c | c in h :: Ordered(h[c])
  }

  lemma PushedOrdered(c: Call)
    ensures Ordered(Pushed(c))
  {
  }

  /** Appending the pushes of a call keeps a history ordered. */
  lemma {:induction false} OrderedAppend(t: seq<Turn>, c: Call)
    requires t == [] || Ordered(t)
    ensures Ordered(t + Pushed(c))
  {
    var p := Pushed(c);
    var s := t + p;
    PushedOrdered(c);
    forall i | 0 < i < |s| && s[i].role == User && s[i] != Opening ensures s[i - 1] == Opening {
      if i < |t| {
        assert s[i] == t[i] && s[i - 1] == t[i - 1];
      } else if i > |t| {
        assert s[i] == p[i - |t|] && s[i - 1] == p[i - 1 - |t|];
      }
    }
  }

  /** Every call keeps every stored history ordered. */
  lemma ExchangeKeepsHistoriesOrdered(h: Histories, chat: ChatId, c: Call)
    requires AllOrdered(h)
    ensures AllOrdered(AfterExchange(h, chat, c))
  {
    OrderedAppend(Stored(h, chat), c);
  }

  lemma {:induction false} TranscriptAppend(a: seq<Call>, b: seq<Call>)
    ensures Transcript(a + b) == Transcript(a) + Transcript(b)
  {
    if a == [] {
      assert a + b == b;
    } else {
      assert (a + b)[1..] == a[1..] + b;
      TranscriptAppend(a[1..], b);
    }
  }

  /** In a chat that already has a history, every call is recorded, answered
      or not, in order; no other chat changes. */
  lemma {:induction false} ExistingChatRecordsEverything(h: Histories, chat: ChatId, calls: seq<Call>)
    requires chat in h
    ensures var r := Exchanges(h, chat, calls);
      && chat in r && r[chat] == h[chat] + Transcript(calls)
      && forall d | d != chat :: (d in r <==> d in h) && (d in h ==> r[d] == h[d])
    decreases |calls|
  {
    if calls != [] {
      var c0, rest := calls[0], calls[1..];
      var h1 := AfterExchange(h, chat, c0);
      assert h1[chat] == h[chat] + Pushed(c0);
      ExistingChatRecordsEverything(h1, chat, rest);
      assert Exchanges(h, chat, calls) == Exchanges(h1, chat, rest);
      assert Transcript(calls) == Pushed(c0) + Transcript(rest);
      assert h1[chat] + Transcript(rest) == h[chat] + Transcript(calls);
    }
  }

  /** A chat without a history gets one at its first readable reply, and
      from then on records every call: its history is the transcript of the
      calls from that one on. */
  lemma FirstReplyStartsHistory(h: Histories, chat: ChatId, calls: seq<Call>)
    requires chat !in h && calls != [] && calls[0].answer.Answered?
    ensures var r := Exchanges(h, chat, calls);
      chat in r && r[chat] == Transcript(calls)
  {
    var h1 := AfterExchange(h, chat, calls[0]);
    ExistingChatRecordsEverything(h1, chat, calls[1..]);
  }

  /** A chat without a history keeps having none while no reply is read. */
  lemma {:induction false} UnreadRunsStoreNothing(h: Histories, chat: ChatId, calls: seq<Call>)
    requires chat !in h
    requires forall i | 0 <= i < |calls| :: !calls[i].answer.Answered?
    ensures Exchanges(h, chat, calls) == h
    decreases |calls|
  {
    if calls != [] {
      assert !calls[0].answer.Answered?;
      UnreadRunsStoreNothing(h, chat, calls[1..]);
    }
  }

  /** The transcript of readable exchanges has four entries per exchange:
      the opening turn, the user's input, and the reply twice as model
      turns (once from the session, once from the bot). */
  lemma {:induction false} AnsweredTranscript(calls: seq<Call>)
    requires forall i | 0 <= i < |calls| :: calls[i].answer.Answered?
    ensures |Transcript(calls)| == 4 * |calls|
    ensures forall k | 0 <= k < |calls| ::
      && Transcript(calls)[4 * k] == Opening
      && Transcript(calls)[4 * k + 1] == Turn(User, calls[k].input)
      && Transcript(calls)[4 * k + 2] == Turn(Model, calls[k].answer.reply)
      && Transcript(calls)[4 * k + 3] == Turn(Model, calls[k].answer.reply)
  {
    if calls != [] {
      var rest := calls[1..];
      AnsweredTranscript(rest);
      var t := Transcript(calls);
      assert t == Pushed(calls[0]) + Transcript(rest);
      forall k | 1 <= k < |calls|
        ensures && t[4 * k] == Opening
                && t[4 * k + 1] == Turn(User, calls[k].input)
                && t[4 * k + 2] == Turn(Model, calls[k].answer.reply)
                && t[4 * k + 3] == Turn(Model, calls[k].answer.reply)
      {
        assert calls[k] == rest[k - 1];
        assert t[4 * k] == Transcript(rest)[4 * (k - 1)];
        assert t[4 * k + 1] == Transcript(rest)[4 * (k - 1) + 1];
        assert t[4 * k + 2] == Transcript(rest)[4 * (k - 1) + 2];
        assert t[4 * k + 3] == Transcript(rest)[4 * (k - 1) + 3];
      }
    }
  }

  /** User and model turns alternate, starting with a user turn. */
  predicate Alternates(t: seq<Turn>)
  {
    forall i | 0 <= i < |t| :: t[i].role == (if i % 2 == 0 then User else Model)
  }

  /** A new chat whose calls all get readable replies holds four entries per
      call, the user's inputs among them; it never alternates, since every
      reply is recorded twice in a row. */
  lemma FreshChatHistory(h: Histories, chat: ChatId, calls: seq<Call>)
    requires chat !in h && calls != []
    requires forall i | 0 <= i < |calls| :: calls[i].answer.Answered?
    ensures var r := Exchanges(h, chat, calls);
      && chat in r && |r[chat]| == 4 * |calls|
      && (forall k | 0 <= k < |calls| :: r[chat][4 * k + 1] == Turn(User, calls[k].input))
      && !Alternates(r[chat])
  {
    FirstReplyStartsHistory(h, chat, calls);
    AnsweredTranscript(calls);
    var r: Histories := Exchanges(h, chat, calls);
    assert r[chat][2].role == Model && r[chat][3].role == Model;
  }

  /** A call without an answer in a chat that already has a history leaves
      its opening turn behind, so the next readable exchange puts two opening
      turns in a row; a chat with no history is unaffected. */
  lemma FailureLeavesOpeningBehind(h: Histories, chat: ChatId, input1: string, input2: string, reply: string)
    ensures chat !in h ==> AfterExchange(h, chat, Call(input1, NoAnswer)) == h
    ensures chat in h ==>
      var r := AfterExchange(AfterExchange(h, chat, Call(input1, NoAnswer)), chat, Call(input2, Answered(reply)));
      var n := |h[chat]|;
      && r[chat] == h[chat] + [Opening, Opening, Turn(User, input2), Turn(Model, reply), Turn(Model, reply)]
      && r[chat][n] == Opening && r[chat][n + 1] == Opening
  {
    if chat in h {
      var r := AfterExchange(AfterExchange(h, chat, Call(input1, NoAnswer)), chat, Call(input2, Answered(reply)));
      assert r[chat] == h[chat] + [Opening, Opening, Turn(User, input2), Turn(Model, reply), Turn(Model, reply)];
    }
  }

  /** `chatHistory`, updated in place by generateText. */
  class ChatHistoryStore {
    var histories: Histories

    constructor ()
      ensures histories == map[]
    {
      histories := map[];
    }

    /** The history steps of `generateText(chatId, apiKey, userInput)`. When
        the chat has a stored array, every push onto `history` is a push onto
        the stored array, so the table is written after each push. */
    method GenerateText(chatId: ChatId, userInput: string, answer: Answer)
      modifies this
      ensures histories == AfterExchange(old(histories), chatId, Call(userInput, answer))
    {
      var shared := chatId in histories;
      var history := Stored(histories, chatId);
      history := history + [Opening];
      if shared {
        histories := histories[chatId := history];
      }
      if answer.NoAnswer? {
        return;
      }
      // the session records the exchange on the array it was given
      var candidate := if answer.Answered? then answer.reply else answer.content;
      history := history + [Turn(User, userInput), Turn(Model, candidate)];
      if shared {
        histories := histories[chatId := history];
      }
      if answer.Unreadable? {
        assert history == Stored(old(histories), chatId) + Pushed(Call(userInput, answer));
        return;
      }
      history := history + [Turn(Model, answer.reply)];
      assert history == Stored(old(histories), chatId) + Pushed(Call(userInput, answer));
      histories := histories[chatId := history];
    }
  }
}
