/** The message delivery protocol: offsetHandling and sendMessageWithRetry
    (Bot.js:1232-1297). Telegram is an oracle that decides the outcome of
    the i-th `sendMessage` call of one delivery; the model records the trace
    of what was sent and with which parse mode. */
module Delivery {
  import opened Base
  import opened Markdown

  /** `{ parse_mode: 'MarkdownV2' }` or `{ parse_mode: 'None' }`. */
  datatype ParseMode = MarkdownV2 | NoFormatting

  /** One `bot.sendMessage(chatId, text, { parse_mode })` call. */
  datatype Send = Send(text: string, mode: ParseMode)

  /** A rejected send: the error's message and `error.response.description`,
      absent when the error has no response or the response no description. */
  datatype SendError = SendError(message: string, description: Option<string>)

  datatype SendOutcome = Delivered | Rejected(error: SendError)

  /** The outcome of the i-th send of a delivery. */
  type Oracle = nat -> SendOutcome

  /** The default `maxRetries` of sendMessageWithRetry. */
  const MaxRetries: nat := 3

  /** `error.response?.description?.includes("can't parse entities")`. */
  predicate IsParseEntitiesError(e: SendError)
  {
    e.description.Some? && Contains(e.description.value, "can't parse entities")
  }

  predicate IsParseEntitiesFailure(o: SendOutcome)
  {
    o.Rejected? && IsParseEntitiesError(o.error)
  }

  /** The sanitized MarkdownV2 send of a retry attempt. */
  function Rich(text: string): Send
  {
    Send(SanitizeText(text), MarkdownV2)
  }

  /** The final unformatted send, with the original text. */
  function Plain(text: string): Send
  {
    Send(text, NoFormatting)
  }

  /** What an awaited send resolves to: nothing, or the error it throws. */
  function AsResult(o: SendOutcome): Result<(), SendError>
  {
    if o.Delivered? then Ok(()) else Err(o.error)
  }

  /** The oracle of the sends that follow the first one. */
  function Shift(respond: Oracle): Oracle
  {
    (i: nat) => respond(i + 1)
  }

  /** What sendMessageWithRetry does, stated over its whole trace: every send
      before the last was a sanitized MarkdownV2 send that failed with a
      "can't parse entities" error; if the budget was not used up, the last
      send is a sanitized MarkdownV2 send that succeeded or failed otherwise,
      and its outcome is the result; if all `maxRetries` attempts failed
      that way, exactly one plain send of the original text follows and its
      outcome is the result. */
  ghost predicate RetryContract(text: string, maxRetries: nat, respond: Oracle,
                                r: Result<(), SendError>, trace: seq<Send>)
  {
    && 1 <= |trace| <= maxRetries + 1
    && (forall i | 0 <= i < |trace| - 1 :: trace[i] == Rich(text) && IsParseEntitiesFailure(respond(i)))
    && var last := |trace| - 1;
       && r == AsResult(respond(last))
       && if last < maxRetries then
            trace[last] == Rich(text) && !IsParseEntitiesFailure(respond(last))
          else
            trace[last] == Plain(text)
  }

  /** `sendMessageWithRetry(chatId, text, maxRetries)`. */
  method SendMessageWithRetry(text: string, maxRetries: nat, respond: Oracle)
    returns (r: Result<(), SendError>, trace: seq<Send>)
    ensures RetryContract(text, maxRetries, respond, r, trace)
  {
    var attempt := 0;
    trace := [];
    while attempt < maxRetries
      invariant attempt == |trace| <= maxRetries
      invariant forall i | 0 <= i < |trace| :: trace[i] == Rich(text) && IsParseEntitiesFailure(respond(i))
    {
      var sanitizedText := SanitizeText(text);
      var outcome := respond(|trace|);
      trace := trace + [Send(sanitizedText, MarkdownV2)];
      if outcome.Delivered? {
        return Ok(()), trace;
      }
      attempt := attempt + 1;
      if IsParseEntitiesError(outcome.error) {
        if attempt == maxRetries {
          break;
        }
      } else {
        return Err(outcome.error), trace;
      }
    }
    var outcome := respond(|trace|);
    trace := trace + [Send(text, NoFormatting)];
    r := AsResult(outcome);
  }

  /** `offsetHandling(chatId, text)`: one raw MarkdownV2 send; when it fails,
      whatever the error, the text goes to sendMessageWithRetry with the
      default budget, and that call's result is the result. */
  method OffsetHandling(text: string, respond: Oracle)
    returns (r: Result<(), SendError>, trace: seq<Send>)
    ensures 1 <= |trace| <= 1 + MaxRetries + 1
    ensures trace[0] == Send(text, MarkdownV2)
    ensures respond(0).Delivered? ==> trace == [Send(text, MarkdownV2)] && r == Ok(())
    ensures respond(0).Rejected? ==> RetryContract(text, MaxRetries, Shift(respond), r, trace[1..])
  {
    var first := respond(0);
    if first.Delivered? {
      return Ok(()), [Send(text, MarkdownV2)];
    }
    var retried;
    r, retried := SendMessageWithRetry(text, MaxRetries, Shift(respond));
    trace := [Send(text, MarkdownV2)] + retried;
    assert trace[1..] == retried;
  }

  /** The contract fixes the result and the trace: given the oracle, there
      is exactly one run of sendMessageWithRetry. */
  lemma RetryContractDeterministic(text: string, maxRetries: nat, respond: Oracle,
                                   r1: Result<(), SendError>, t1: seq<Send>,
                                   r2: Result<(), SendError>, t2: seq<Send>)
    requires RetryContract(text, maxRetries, respond, r1, t1)
    requires RetryContract(text, maxRetries, respond, r2, t2)
    ensures r1 == r2 && t1 == t2
  {
    if |t1| < |t2| {
      assert false;
    } else if |t2| < |t1| {
      assert false;
    }
    assert |t1| == |t2|;
    forall i | 0 <= i < |t1| ensures t1[i] == t2[i] {
    }
  }

  /** A "can't parse entities" failure on the first attempt and success on
      the second give exactly two sanitized sends and no plain fallback. */
  lemma ParseErrorThenSuccess(text: string, maxRetries: nat, respond: Oracle,
                              r: Result<(), SendError>, trace: seq<Send>)
    requires maxRetries >= 2
    requires IsParseEntitiesFailure(respond(0)) && respond(1).Delivered?
    requires RetryContract(text, maxRetries, respond, r, trace)
    ensures trace == [Rich(text), Rich(text)] && r == Ok(())
  {
    if |trace| == 1 {
      assert false;
    } else if |trace| > 2 {
      assert false;
    }
  }

  /** When every attempt of the budget fails with "can't parse entities",
      the run is the `maxRetries` sanitized sends followed by one plain send
      of the original text, whose failure is the result. */
  lemma ExhaustedBudgetFallsBack(text: string, maxRetries: nat, respond: Oracle,
                                 r: Result<(), SendError>, trace: seq<Send>)
    requires forall i | 0 <= i < maxRetries :: IsParseEntitiesFailure(respond(i))
    requires RetryContract(text, maxRetries, respond, r, trace)
    ensures |trace| == maxRetries + 1
    ensures forall i | 0 <= i < maxRetries :: trace[i] == Rich(text)
    ensures trace[maxRetries] == Plain(text)
    ensures r == AsResult(respond(maxRetries))
  {
    if |trace| - 1 < maxRetries {
      assert false;
    }
  }

  /** Any other error ends the run at once: no further send, no fallback,
      and the error itself is the result. */
  lemma OtherErrorIsRethrown(text: string, maxRetries: nat, respond: Oracle, k: nat,
                             r: Result<(), SendError>, trace: seq<Send>)
    requires k < maxRetries
    requires forall i | 0 <= i < k :: IsParseEntitiesFailure(respond(i))
    requires respond(k).Rejected? && !IsParseEntitiesError(respond(k).error)
    requires RetryContract(text, maxRetries, respond, r, trace)
    ensures |trace| == k + 1 && trace[k] == Rich(text)
    ensures r == Err(respond(k).error)
  {
    if |trace| - 1 < k {
      assert false;
    } else if |trace| - 1 > k {
      assert false;
    }
  }

  /** Every MarkdownV2 send of a delivery after the first carries the
      sanitized ORIGINAL text, so no attempt escapes already escaped text,
      and nothing is sent after a successful send. */
  lemma DeliveryNeverReescapes(text: string, respond: Oracle, r: Result<(), SendError>, trace: seq<Send>)
    requires |trace| >= 1 && respond(0).Rejected?
    requires RetryContract(text, MaxRetries, Shift(respond), r, trace[1..])
    ensures forall i | 1 <= i < |trace| && trace[i].mode == MarkdownV2 :: trace[i].text == SanitizeText(text)
    ensures forall i | 1 <= i < |trace| && trace[i].mode == NoFormatting :: trace[i].text == text
    ensures forall i | 1 <= i < |trace| - 1 :: respond(i).Rejected?
  {
    forall i | 1 <= i < |trace| - 1 ensures respond(i).Rejected? {
      assert trace[1..][i - 1] == trace[i];
      assert IsParseEntitiesFailure(Shift(respond)(i - 1));
    }
    forall i | 1 <= i < |trace| ensures trace[i] == Rich(text) || trace[i] == Plain(text) {
      assert trace[1..][i - 1] == trace[i];
    }
  }
}
