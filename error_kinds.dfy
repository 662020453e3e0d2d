/** How the analysis functions (analyzeImage, analyzeAudio, analyzePdf,
    analyzeVideo) and generateText sort a caught error by substrings of its
    message before choosing the reply (Bot.js:775-786 and the three copies
    after it, Bot.js:1217-1229). */
module ErrorKinds {
  import opened Base

  /** The reply an error gets: a temporary-outage, a safety, a quota or the
      generic message of handleError. `OtherBlocked` is the second safety
      reply, given only by generateText. */
  datatype ErrorKind = ServerError | Safety | OtherBlocked | Quota | Generic

  const ServerMarker: string := "500 Internal Server Error"
  const SafetyMarker: string := "SAFETY"
  const OtherMarker: string := "OTHER"
  const TooManyMarker: string := "429 Too Many Requests"
  const ExhaustedMarker: string := "Resource has been exhausted"

  predicate IsQuotaMessage(m: string)
  {
    Contains(m, TooManyMarker) || Contains(m, ExhaustedMarker)
  }

  /** The `if`/`else if` chain of the four analysis functions. */
  function ClassifyAnalysisError(m: string): (k: ErrorKind)
    ensures k != OtherBlocked
  {
    if Contains(m, ServerMarker) then ServerError
    else if Contains(m, SafetyMarker) then Safety
    else if IsQuotaMessage(m) then Quota
    else Generic
  }

  /** The chain of generateText: the same, with an `OTHER` test between the
      safety test and the quota test. */
  function ClassifyChatError(m: string): ErrorKind
  {
    if Contains(m, ServerMarker) then ServerError
    else if Contains(m, SafetyMarker) then Safety
    else if Contains(m, OtherMarker) then OtherBlocked
    else if IsQuotaMessage(m) then Quota
    else Generic
  }

  /** Each kind of the analysis chain, stated as the markers the message must
      and must not contain: the earlier tests take priority. */
  lemma AnalysisKinds(m: string)
    ensures ClassifyAnalysisError(m) == ServerError <==> Contains(m, ServerMarker)
    ensures ClassifyAnalysisError(m) == Safety <==> !Contains(m, ServerMarker) && Contains(m, SafetyMarker)
    ensures ClassifyAnalysisError(m) == Quota
        <==> !Contains(m, ServerMarker) && !Contains(m, SafetyMarker) && IsQuotaMessage(m)
    ensures ClassifyAnalysisError(m) == Generic
        <==> !Contains(m, ServerMarker) && !Contains(m, SafetyMarker) && !IsQuotaMessage(m)
  {
  }

  /** The two chains agree except on messages that the analysis chain calls
      a quota or generic error and that contain `OTHER`: generateText answers
      those with its second safety reply. */
  lemma ChatRefinesAnalysis(m: string)
    ensures ClassifyChatError(m) ==
      if ClassifyAnalysisError(m) in {Quota, Generic} && Contains(m, OtherMarker) then OtherBlocked
      else ClassifyAnalysisError(m)
  {
  }

  /** Containment survives surrounding text: a marker anywhere in a longer
      message still counts. */
  lemma ContainsInContext(pre: string, m: string, post: string, sub: string)
    requires Contains(m, sub)
    ensures Contains(pre + m + post, sub)
  {
    var i :| 0 <= i <= |m| - |sub| && OccursAt(m, sub, i);
    var s := pre + m + post;
    assert s[|pre| + i..|pre| + i + |sub|] == m[i..i + |sub|];
    assert OccursAt(s, sub, |pre| + i);
  }

  /** A message carrying the server marker is a server error for both
      chains, whatever else it says (a safety or quota word included). */
  lemma ServerMarkerWins(pre: string, post: string)
    ensures ClassifyAnalysisError(pre + ServerMarker + post) == ServerError
    ensures ClassifyChatError(pre + ServerMarker + post) == ServerError
  {
    var s := pre + ServerMarker + post;
    assert s[|pre|..|pre| + |ServerMarker|] == ServerMarker;
    assert OccursAt(s, ServerMarker, |pre|);
  }

  /** A message with the exhaustion wording and neither earlier marker is a
      quota error, in the analysis chain without further condition. */
  lemma ExhaustedIsQuota(pre: string, post: string)
    requires !Contains(pre + ExhaustedMarker + post, ServerMarker)
    requires !Contains(pre + ExhaustedMarker + post, SafetyMarker)
    ensures ClassifyAnalysisError(pre + ExhaustedMarker + post) == Quota
  {
    var s := pre + ExhaustedMarker + post;
    assert s[|pre|..|pre| + |ExhaustedMarker|] == ExhaustedMarker;
    assert OccursAt(s, ExhaustedMarker, |pre|);
  }
}
