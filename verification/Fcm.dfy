/** Push delivery in batches with retries (notifications/fcm.service.ts).

    The gateway is a function of the batch number and the attempt number: it throws, or answers each token of
    the batch.
 */
module Fcm {
  import opened Wrappers

  const MAX_ATTEMPTS := 3
  const MULTICAST_BATCH := 500

  datatype Answer = Delivered | Refused(tokenIsInvalid: bool)

  datatype Outcome = Thrown | Answers(answers: seq<Answer>)

  type Gateway = (nat, nat) -> Outcome

  datatype PushResult = PushResult(attempted: nat, succeeded: nat, failed: nat, invalidTokens: seq<string>)

  // ---- the specification ----

  function Least(a: nat, b: nat): nat {
    if a <= b then a else b
  }

  /** The i-th batch. */
  function Batch(tokens: seq<string>, i: nat): seq<string>
    requires i * MULTICAST_BATCH <= |tokens|
  {
    tokens[i * MULTICAST_BATCH..Least((i + 1) * MULTICAST_BATCH, |tokens|)]
  }

  function BatchCount(tokens: seq<string>): nat {
    (|tokens| + MULTICAST_BATCH - 1) / MULTICAST_BATCH
  }

  /** The first attempt, of those from `attempt` on, that does not throw. */
  function FirstAnswer(gateway: Gateway, batch: nat, attempt: nat): Option<seq<Answer>>
    requires 1 <= attempt <= MAX_ATTEMPTS + 1
    decreases MAX_ATTEMPTS + 1 - attempt
  {
    if attempt > MAX_ATTEMPTS then None
    else match gateway(batch, attempt)
      case Answers(answers) => Some(answers)
      case Thrown => FirstAnswer(gateway, batch, attempt + 1)
  }

  function Count(answers: seq<Answer>, delivered: bool): nat {
    if answers == [] then 0
    else Count(answers[..|answers| - 1], delivered) + if answers[|answers| - 1].Delivered? == delivered then 1 else 0
  }

  function InvalidOf(tokens: seq<string>, answers: seq<Answer>): seq<string>
    requires |answers| <= |tokens|
  {
    if answers == [] then []
    else
      var n := |answers| - 1;
      InvalidOf(tokens, answers[..n]) + if answers[n].Refused? && answers[n].tokenIsInvalid then [tokens[n]] else []
  }

  /** Firebase answers every token of a multicast, in order. */
  ghost predicate AnswersEveryToken(gateway: Gateway, tokens: seq<string>) {
    forall i: nat, attempt: nat | i * MULTICAST_BATCH <= |tokens| && gateway(i, attempt).Answers? ::
      |gateway(i, attempt).answers| == |Batch(tokens, i)|
  }

  /** `picked` can be read off `from`, in order, leaving tokens out. */
  ghost predicate Subsequence(picked: seq<string>, from: seq<string>) {
    if picked == [] then true
    else if from == [] then false
    else if picked[|picked| - 1] == from[|from| - 1]
      && Subsequence(picked[..|picked| - 1], from[..|from| - 1]) then true
    else Subsequence(picked, from[..|from| - 1])
  }

  lemma {:induction false} SubsequenceOfLonger(picked: seq<string>, from: seq<string>, more: seq<string>)
    requires Subsequence(picked, from)
    ensures Subsequence(picked, from + more)
    decreases |more|
  {
    if more == [] {
      assert from + more == from;
    } else {
      var n := |more| - 1;
      SubsequenceOfLonger(picked, from, more[..n]);
      assert (from + more)[..|from + more| - 1] == from + more[..n];
    }
  }

  lemma {:induction false} SubsequenceConcat(a: seq<string>, from: seq<string>, b: seq<string>, more: seq<string>)
    requires Subsequence(a, from) && Subsequence(b, more)
    ensures Subsequence(a + b, from + more)
    decreases |more|
  {
    if b == [] {
      assert a + b == a;
      SubsequenceOfLonger(a, from, more);
    } else {
      var n := |more| - 1;
      assert (from + more)[..|from + more| - 1] == from + more[..n];
      assert (a + b)[..|a + b| - 1] == a + b[..|b| - 1];
      if b[|b| - 1] == more[n] && Subsequence(b[..|b| - 1], more[..n]) {
        SubsequenceConcat(a, from, b[..|b| - 1], more[..n]);
      } else {
        SubsequenceConcat(a, from, b, more[..n]);
      }
    }
  }

  lemma {:induction false} AnswersAddUp(tokens: seq<string>, answers: seq<Answer>)
    requires |answers| <= |tokens|
    ensures Count(answers, true) + Count(answers, false) == |answers|
    ensures |InvalidOf(tokens, answers)| <= Count(answers, false)
    ensures Subsequence(InvalidOf(tokens, answers), tokens[..|answers|])
  {
    if answers != [] {
      var n := |answers| - 1;
      AnswersAddUp(tokens, answers[..n]);
      var before := InvalidOf(tokens, answers[..n]);
      assert tokens[..n + 1] == tokens[..n] + [tokens[n]];
      if answers[n].Refused? && answers[n].tokenIsInvalid {
        assert Subsequence([], []);
        assert Subsequence([tokens[n]], [tokens[n]]);
        SubsequenceConcat(before, tokens[..n], [tokens[n]], [tokens[n]]);
      } else {
        assert InvalidOf(tokens, answers) == before;
        SubsequenceOfLonger(before, tokens[..n], [tokens[n]]);
      }
    }
  }

  /** The result once one more batch has been accounted for. */
  function WithBatch(r: PushResult, batch: seq<string>, answers: Option<seq<Answer>>): PushResult {
    if answers.None? || |answers.value| > |batch| then r.(failed := r.failed + |batch|)
    else r.(succeeded := r.succeeded + Count(answers.value, true), failed := r.failed + Count(answers.value, false),
            invalidTokens := r.invalidTokens + InvalidOf(batch, answers.value))
  }

  /** The result of the first n batches. */
  function Tally(gateway: Gateway, tokens: seq<string>, n: nat): PushResult
    requires n <= BatchCount(tokens)
  {
    if n == 0 then PushResult(|tokens|, 0, 0, [])
    else WithBatch(Tally(gateway, tokens, n - 1), Batch(tokens, n - 1), FirstAnswer(gateway, n - 1, 1))
  }

  /** Everything sent so far, batch after batch. */
  function Flatten(batches: seq<seq<string>>): seq<string> {
    if batches == [] then [] else Flatten(batches[..|batches| - 1]) + batches[|batches| - 1]
  }

  /** The accounts of a send that has got as far as `done`: nothing is lost between delivered and failed, and
      only tokens that failed are reported, in order. */
  ghost predicate Balanced(r: PushResult, done: seq<string>) {
    && r.succeeded + r.failed == |done|
    && |r.invalidTokens| <= r.failed
    && Subsequence(r.invalidTokens, done)
  }

  // ---- the same accounts, token by token ----

  /** What became of each token of a batch: its answer, or nothing when the batch was given up. */
  function FatesOfBatch(answers: Option<seq<Answer>>, size: nat): (fates: seq<Option<Answer>>)
    ensures |fates| == size
  {
    seq(size, i requires 0 <= i < size =>
      if answers.Some? && i < |answers.value| then Some(answers.value[i]) else None)
  }

  /** What became of the tokens of the first `n` batches. */
  function Fates(gateway: Gateway, tokens: seq<string>, n: nat): seq<Option<Answer>>
    requires n <= BatchCount(tokens)
  {
    if n == 0 then []
    else Fates(gateway, tokens, n - 1) + FatesOfBatch(FirstAnswer(gateway, n - 1, 1), |Batch(tokens, n - 1)|)
  }

  function DeliveredIn(fates: seq<Option<Answer>>): nat {
    if fates == [] then 0
    else DeliveredIn(fates[..|fates| - 1]) + if fates[|fates| - 1] == Some(Delivered) then 1 else 0
  }

  /** The positions of the tokens that were answered to be invalid, in order. */
  function InvalidIn(fates: seq<Option<Answer>>): (positions: seq<nat>)
    ensures forall i | 0 <= i < |positions| :: positions[i] < |fates|
  {
    if fates == [] then []
    else
      var n := |fates| - 1;
      InvalidIn(fates[..n]) + if fates[n] == Some(Refused(true)) then [n] else []
  }

  lemma {:induction false} InvalidPositionsExactly(fates: seq<Option<Answer>>)
    ensures forall p: nat :: p in InvalidIn(fates) <==> p < |fates| && fates[p] == Some(Refused(true))
    ensures forall i, j | 0 <= i < j < |InvalidIn(fates)| :: InvalidIn(fates)[i] < InvalidIn(fates)[j]
  {
    if fates != [] {
      InvalidPositionsExactly(fates[..|fates| - 1]);
    }
  }

  function TokensAt(tokens: seq<string>, positions: seq<nat>): seq<string>
    requires forall i | 0 <= i < |positions| :: positions[i] < |tokens|
  {
    if positions == [] then []
    else TokensAt(tokens, positions[..|positions| - 1]) + [tokens[positions[|positions| - 1]]]
  }

  lemma {:induction false} TokensAtByPosition(tokens: seq<string>, positions: seq<nat>)
    requires forall i | 0 <= i < |positions| :: positions[i] < |tokens|
    ensures |TokensAt(tokens, positions)| == |positions|
    ensures forall i | 0 <= i < |positions| :: TokensAt(tokens, positions)[i] == tokens[positions[i]]
  {
    if positions != [] {
      TokensAtByPosition(tokens, positions[..|positions| - 1]);
    }
  }

  /** The totals are those of the tokens, one by one. */
  predicate CountsTokens(tokens: seq<string>, fates: seq<Option<Answer>>, r: PushResult)
    requires |fates| <= |tokens|
  {
    && r.succeeded == DeliveredIn(fates) && r.succeeded + r.failed == |fates|
    && r.invalidTokens == TokensAt(tokens, InvalidIn(fates))
  }

  lemma OneMoreDelivered(fates: seq<Option<Answer>>, fate: Option<Answer>)
    ensures DeliveredIn(fates + [fate]) == DeliveredIn(fates) + if fate == Some(Delivered) then 1 else 0
  {
    assert (fates + [fate])[..|fates|] == fates;
  }

  lemma OnePositionMore(tokens: seq<string>, positions: seq<nat>, p: nat)
    requires p < |tokens| && forall i | 0 <= i < |positions| :: positions[i] < |tokens|
    ensures TokensAt(tokens, positions + [p]) == TokensAt(tokens, positions) + [tokens[p]]
  {
    assert (positions + [p])[..|positions|] == positions;
  }

  lemma OneMoreInvalid(tokens: seq<string>, fates: seq<Option<Answer>>, fate: Option<Answer>)
    requires |fates| < |tokens|
    ensures TokensAt(tokens, InvalidIn(fates + [fate])) ==
      TokensAt(tokens, InvalidIn(fates)) + if fate == Some(Refused(true)) then [tokens[|fates|]] else []
  {
    assert (fates + [fate])[..|fates|] == fates;
    if fate == Some(Refused(true)) {
      OnePositionMore(tokens, InvalidIn(fates), |fates|);
    } else {
      assert InvalidIn(fates) + [] == InvalidIn(fates);
    }
  }

  lemma {:induction false} AnsweredDeliveries(before: seq<Option<Answer>>, answers: seq<Answer>)
    ensures DeliveredIn(before + FatesOfBatch(Some(answers), |answers|)) == DeliveredIn(before) + Count(answers, true)
  {
    if answers == [] {
      assert before + FatesOfBatch(Some(answers), 0) == before;
    } else {
      var n := |answers| - 1;
      AnsweredDeliveries(before, answers[..n]);
      LongerBatch(before, answers);
      OneMoreDelivered(before + FatesOfBatch(Some(answers[..n]), n), Some(answers[n]));
    }
  }

  lemma {:induction false} AnsweredInvalid(tokens: seq<string>, before: seq<Option<Answer>>, batch: seq<string>,
                                           answers: seq<Answer>)
    requires |answers| <= |batch| && |before| + |batch| <= |tokens|
    requires forall i | 0 <= i < |batch| :: tokens[|before|..][i] == batch[i]
    ensures TokensAt(tokens, InvalidIn(before + FatesOfBatch(Some(answers), |answers|))) ==
      TokensAt(tokens, InvalidIn(before)) + InvalidOf(batch, answers)
  {
    if answers == [] {
      assert before + FatesOfBatch(Some(answers), 0) == before;
    } else {
      var n := |answers| - 1;
      AnsweredInvalid(tokens, before, batch, answers[..n]);
      LongerBatch(before, answers);
      LastAnswerInPlace(tokens, before, batch, answers);
      LastInvalid(batch, answers);
      Associate(TokensAt(tokens, InvalidIn(before)), InvalidOf(batch, answers[..n]),
                if answers[n] == Refused(true) then [batch[n]] else []);
    }
  }

  lemma LastInvalid(batch: seq<string>, answers: seq<Answer>)
    requires 0 < |answers| <= |batch|
    ensures var n := |answers| - 1;
      InvalidOf(batch, answers) ==
        InvalidOf(batch, answers[..n]) + if answers[n] == Refused(true) then [batch[n]] else []
  {
  }

  lemma LastAnswerInPlace(tokens: seq<string>, before: seq<Option<Answer>>, batch: seq<string>, answers: seq<Answer>)
    requires 0 < |answers| <= |batch| && |before| + |batch| <= |tokens|
    requires forall i | 0 <= i < |batch| :: tokens[|before|..][i] == batch[i]
    ensures var n := |answers| - 1;
      var shorter := before + FatesOfBatch(Some(answers[..n]), n);
      TokensAt(tokens, InvalidIn(shorter + [Some(answers[n])])) ==
        TokensAt(tokens, InvalidIn(shorter)) + if answers[n] == Refused(true) then [batch[n]] else []
  {
    var n := |answers| - 1;
    OneMoreInvalid(tokens, before + FatesOfBatch(Some(answers[..n]), n), Some(answers[n]));
    assert tokens[|before| + n] == tokens[|before|..][n] == batch[n];
  }

  lemma Associate(a: seq<string>, b: seq<string>, c: seq<string>)
    ensures a + b + c == a + (b + c)
  {
  }

  lemma LongerBatch(before: seq<Option<Answer>>, answers: seq<Answer>)
    requires answers != []
    ensures var n := |answers| - 1;
      before + FatesOfBatch(Some(answers), n + 1) == before + FatesOfBatch(Some(answers[..n]), n) + [Some(answers[n])]
  {
  }

  lemma {:induction false} LostFates(tokens: seq<string>, before: seq<Option<Answer>>, n: nat)
    requires |before| + n <= |tokens|
    ensures var fates := before + FatesOfBatch(None, n);
      && DeliveredIn(fates) == DeliveredIn(before)
      && TokensAt(tokens, InvalidIn(fates)) == TokensAt(tokens, InvalidIn(before))
  {
    if n == 0 {
      assert before + FatesOfBatch(None, 0) == before;
    } else {
      var shorter := before + FatesOfBatch(None, n - 1);
      LostFates(tokens, before, n - 1);
      OneMoreDelivered(shorter, None);
      OneMoreInvalid(tokens, shorter, None);
      assert before + FatesOfBatch(None, n) == shorter + [None];
    }
  }

  lemma OneMoreBatchCounted(tokens: seq<string>, before: seq<Option<Answer>>, batch: seq<string>,
                            answers: Option<seq<Answer>>, r: PushResult)
    requires |before| + |batch| <= |tokens| && CountsTokens(tokens, before, r)
    requires forall i | 0 <= i < |batch| :: tokens[|before|..][i] == batch[i]
    requires answers.Some? ==> |answers.value| == |batch|
    ensures CountsTokens(tokens, before + FatesOfBatch(answers, |batch|), WithBatch(r, batch, answers))
  {
    if answers.Some? {
      AnsweredDeliveries(before, answers.value);
      AnsweredInvalid(tokens, before, batch, answers.value);
      AnswersAddUp(batch, answers.value);
    } else {
      LostFates(tokens, before, |batch|);
    }
  }

  /** An answer, when there is one, is an answer of some attempt. */
  lemma {:induction false} FirstAnswerIsAnAnswer(gateway: Gateway, batch: nat, attempt: nat) returns (a: nat)
    requires 1 <= attempt <= MAX_ATTEMPTS + 1 && FirstAnswer(gateway, batch, attempt).Some?
    ensures gateway(batch, a) == Answers(FirstAnswer(gateway, batch, attempt).value)
    decreases MAX_ATTEMPTS + 1 - attempt
  {
    if gateway(batch, attempt).Answers? {
      a := attempt;
    } else {
      a := FirstAnswerIsAnAnswer(gateway, batch, attempt + 1);
    }
  }

  lemma BatchSlice(tokens: seq<string>, k: nat)
    requires k < BatchCount(tokens)
    ensures var start, batch := k * MULTICAST_BATCH, Batch(tokens, k);
      && 1 <= |batch| <= MULTICAST_BATCH && start + |batch| == Least((k + 1) * MULTICAST_BATCH, |tokens|)
      && start + |batch| <= |tokens| && batch == tokens[start..start + |batch|]
      && Least(k * MULTICAST_BATCH, |tokens|) == start
  {
  }

  lemma {:induction false} TallyCountsTokens(gateway: Gateway, tokens: seq<string>, k: nat)
    requires AnswersEveryToken(gateway, tokens) && k <= BatchCount(tokens)
    ensures |Fates(gateway, tokens, k)| == Least(k * MULTICAST_BATCH, |tokens|)
    ensures CountsTokens(tokens, Fates(gateway, tokens, k), Tally(gateway, tokens, k))
  {
    if k > 0 {
      var batch, before := Batch(tokens, k - 1), Fates(gateway, tokens, k - 1);
      TallyCountsTokens(gateway, tokens, k - 1);
      BatchSlice(tokens, k - 1);
      if FirstAnswer(gateway, k - 1, 1).Some? {
        var a := FirstAnswerIsAnAnswer(gateway, k - 1, 1);
      }
      OneMoreBatchCounted(tokens, before, batch, FirstAnswer(gateway, k - 1, 1), Tally(gateway, tokens, k - 1));
    }
  }

  lemma LastBatch(tokens: seq<string>)
    ensures Least(BatchCount(tokens) * MULTICAST_BATCH, |tokens|) == |tokens|
  {
  }

  /** All tokens together: the totals count them one by one, and a token is reported exactly when the first attempt
      at its batch that did not throw answered it to be invalid. */
  lemma SendingCountsTokens(gateway: Gateway, tokens: seq<string>)
    requires AnswersEveryToken(gateway, tokens)
    ensures |Fates(gateway, tokens, BatchCount(tokens))| == |tokens|
    ensures CountsTokens(tokens, Fates(gateway, tokens, BatchCount(tokens)), Tally(gateway, tokens, BatchCount(tokens)))
  {
    TallyCountsTokens(gateway, tokens, BatchCount(tokens));
    LastBatch(tokens);
  }

  lemma FateInLastBatch(gateway: Gateway, tokens: seq<string>, k: nat, j: nat)
    requires 0 < k <= BatchCount(tokens) && j < |Batch(tokens, k - 1)| <= MULTICAST_BATCH
    requires |Fates(gateway, tokens, k - 1)| == (k - 1) * MULTICAST_BATCH
    ensures var p := (k - 1) * MULTICAST_BATCH + j;
      && p < |Fates(gateway, tokens, k)|
      && Fates(gateway, tokens, k)[p] == AnswerAt(gateway, p)
  {
    BatchPosition(k - 1, j);
  }

  /** What the gateway answered about the token at `p`, if its batch of 500 was answered at all. */
  function AnswerAt(gateway: Gateway, p: nat): Option<Answer> {
    var answers := FirstAnswer(gateway, p / MULTICAST_BATCH, 1);
    if answers.Some? && p % MULTICAST_BATCH < |answers.value| then Some(answers.value[p % MULTICAST_BATCH]) else None
  }

  lemma {:induction false} FateByPosition(gateway: Gateway, tokens: seq<string>, k: nat, p: nat)
    requires AnswersEveryToken(gateway, tokens) && k <= BatchCount(tokens) && p < |Fates(gateway, tokens, k)|
    ensures Fates(gateway, tokens, k)[p] == AnswerAt(gateway, p)
  {
    BatchesBefore(gateway, tokens, k);
    var n := |Fates(gateway, tokens, k - 1)|;
    if p < n {
      FateByPosition(gateway, tokens, k - 1, p);
    } else {
      FateInLastBatch(gateway, tokens, k, p - n);
    }
  }

  lemma BatchesBefore(gateway: Gateway, tokens: seq<string>, k: nat)
    requires AnswersEveryToken(gateway, tokens) && 0 < k <= BatchCount(tokens)
    ensures var before, batch := Fates(gateway, tokens, k - 1), Batch(tokens, k - 1);
      && |before| == (k - 1) * MULTICAST_BATCH && |batch| <= MULTICAST_BATCH
      && |Fates(gateway, tokens, k)| == |before| + |batch|
      && forall p | 0 <= p < |before| :: Fates(gateway, tokens, k)[p] == before[p]
  {
    BatchSlice(tokens, k - 1);
    TallyCountsTokens(gateway, tokens, k - 1);
  }

  lemma BatchPosition(k: nat, j: nat)
    requires j < MULTICAST_BATCH
    ensures (k * MULTICAST_BATCH + j) / MULTICAST_BATCH == k && (k * MULTICAST_BATCH + j) % MULTICAST_BATCH == j
  {
  }

  // ---- the service ----

  /** `withRetry`: at most three attempts, stopping at the first that does not throw. */
  method WithRetry(gateway: Gateway, batch: nat) returns (res: Option<seq<Answer>>, attempts: nat)
    ensures res == FirstAnswer(gateway, batch, 1)
    ensures 1 <= attempts <= MAX_ATTEMPTS
    ensures res.Some? ==> gateway(batch, attempts) == Answers(res.value)
    ensures forall a | 1 <= a < attempts :: gateway(batch, a).Thrown?
    ensures res.None? ==> attempts == MAX_ATTEMPTS && forall a | 1 <= a <= MAX_ATTEMPTS :: gateway(batch, a).Thrown?
  {
    var attempt := 1;
    while attempt <= MAX_ATTEMPTS
      invariant 1 <= attempt <= MAX_ATTEMPTS + 1
      invariant FirstAnswer(gateway, batch, attempt) == FirstAnswer(gateway, batch, 1)
      invariant forall a | 1 <= a < attempt :: gateway(batch, a).Thrown?
    {
      match gateway(batch, attempt) {
        case Answers(answers) => return Some(answers), attempt;
        case Thrown =>
      }
      attempt := attempt + 1;
    }
    return None, MAX_ATTEMPTS;
  }

  method CountAnswers(result: PushResult, batch: seq<string>, answers: seq<Answer>, ghost done: seq<string>)
    returns (r: PushResult)
    requires |answers| == |batch| && Balanced(result, done)
    ensures Balanced(r, done + batch) && r.attempted == result.attempted
    ensures r.succeeded == result.succeeded + Count(answers, true)
    ensures r.failed == result.failed + Count(answers, false)
    ensures r.invalidTokens == result.invalidTokens + InvalidOf(batch, answers)
  {
    r := result;
    for i := 0 to |answers|
      invariant r.attempted == result.attempted
      invariant r.succeeded == result.succeeded + Count(answers[..i], true)
      invariant r.failed == result.failed + Count(answers[..i], false)
      invariant r.invalidTokens == result.invalidTokens + InvalidOf(batch, answers[..i])
    {
      assert answers[..i + 1][..i] == answers[..i];
      match answers[i] {
        case Delivered => r := r.(succeeded := r.succeeded + 1);
        case Refused(tokenIsInvalid) =>
          r := r.(failed := r.failed + 1);
          if tokenIsInvalid {
            r := r.(invalidTokens := r.invalidTokens + [batch[i]]);
          }
      }
    }
    assert answers[..|answers|] == answers && batch[..|answers|] == batch;
    AnswersAddUp(batch, answers);
    SubsequenceConcat(result.invalidTokens, done, InvalidOf(batch, answers), batch);
  }

  method SendBatch(batch: seq<string>, number: nat, gateway: Gateway, result: PushResult, ghost done: seq<string>)
    returns (r: PushResult, attempts: nat)
    requires Balanced(result, done)
    requires forall a: nat | gateway(number, a).Answers? :: |gateway(number, a).answers| == |batch|
    ensures Balanced(r, done + batch) && r.attempted == result.attempted
    ensures TriedRight(gateway, number, attempts)
    ensures r == WithBatch(result, batch, FirstAnswer(gateway, number, 1))
  {
    var res, tries := WithRetry(gateway, number);
    attempts := tries;
    if res.None? {
      r := result.(failed := result.failed + |batch|);
      SubsequenceOfLonger(result.invalidTokens, done, batch);
    } else {
      r := CountAnswers(result, batch, res.value, done);
    }
  }

  /** Tried until the first answer, and given up only after the last attempt allowed. */
  ghost predicate TriedRight(gateway: Gateway, batch: nat, attempts: nat) {
    && 1 <= attempts <= 3
    && (forall a | 1 <= a < attempts :: gateway(batch, a).Thrown?)
    && (gateway(batch, attempts).Thrown? ==> attempts == 3)
  }

  /** The batches handed over: none empty, none over the limit, together `done`, each tried right. */
  ghost predicate LogOk(gateway: Gateway, batches: seq<seq<string>>, attempts: seq<nat>, done: seq<string>) {
    && Flatten(batches) == done
    && |attempts| == |batches|
    && (forall k | 0 <= k < |batches| :: 1 <= |batches[k]| <= 500)
    && (forall k | 0 <= k < |attempts| :: TriedRight(gateway, k, attempts[k]))
  }

  lemma LogGrows(gateway: Gateway, batches: seq<seq<string>>, attempts: seq<nat>, done: seq<string>,
                 batch: seq<string>, tries: nat)
    requires LogOk(gateway, batches, attempts, done)
    requires 1 <= |batch| <= MULTICAST_BATCH && TriedRight(gateway, |batches|, tries)
    ensures LogOk(gateway, batches + [batch], attempts + [tries], done + batch)
  {
  }

  lemma NextBatch(tokens: seq<string>, i: nat, number: nat)
    requires i == number * MULTICAST_BATCH < |tokens|
    ensures var batch := tokens[i..Least(i + MULTICAST_BATCH, |tokens|)];
      && batch == Batch(tokens, number) && 1 <= |batch| <= MULTICAST_BATCH
      && tokens[..i] + batch == tokens[..i + |batch|]
      && number < BatchCount(tokens)
      && (i + |batch| < |tokens| ==> i + |batch| == (number + 1) * MULTICAST_BATCH)
      && (i + |batch| == |tokens| ==> number + 1 == BatchCount(tokens))
  {
  }

  /** `enabled` says whether messaging is configured.  `batches` and `attempts` record what was handed to the
      gateway and how often each batch was tried. */
  method SendToTokens(enabled: bool, tokens: seq<string>, gateway: Gateway)
    returns (result: PushResult, ghost batches: seq<seq<string>>, ghost attempts: seq<nat>)
    requires AnswersEveryToken(gateway, tokens)
    ensures result.attempted == |tokens|
    ensures !enabled ==> result == PushResult(|tokens|, 0, 0, []) && batches == []
    ensures enabled ==> LogOk(gateway, batches, attempts, tokens) && |batches| == BatchCount(tokens)
    ensures enabled ==> result == Tally(gateway, tokens, BatchCount(tokens))
    ensures enabled ==> result.succeeded + result.failed == result.attempted
    ensures enabled ==>
      && |Fates(gateway, tokens, BatchCount(tokens))| == |tokens|
      && CountsTokens(tokens, Fates(gateway, tokens, BatchCount(tokens)), result)
    ensures |result.invalidTokens| <= result.failed && Subsequence(result.invalidTokens, tokens)
  {
    result := PushResult(|tokens|, 0, 0, []);
    batches, attempts := [], [];
    assert [] + tokens == tokens;
    SubsequenceOfLonger([], [], tokens);
    if !enabled {
      return;
    }
    var i, number := 0, 0;
    while i < |tokens|
      invariant 0 <= i <= |tokens| && number == |batches|
      invariant i < |tokens| ==> i == number * MULTICAST_BATCH
      invariant i == |tokens| ==> number == BatchCount(tokens)
      invariant LogOk(gateway, batches, attempts, tokens[..i])
      invariant number <= BatchCount(tokens) && result == Tally(gateway, tokens, number)
      invariant result.attempted == |tokens| && Balanced(result, tokens[..i])
    {
      var batch := tokens[i..Least(i + MULTICAST_BATCH, |tokens|)];
      NextBatch(tokens, i, number);
      var tries;
      result, tries := SendBatch(batch, number, gateway, result, tokens[..i]);
      LogGrows(gateway, batches, attempts, tokens[..i], batch, tries);
      batches, attempts := batches + [batch], attempts + [tries];
      i := i + |batch|;
      number := number + 1;
    }
    assert tokens[..i] == tokens;
    SendingCountsTokens(gateway, tokens);
  }
}
