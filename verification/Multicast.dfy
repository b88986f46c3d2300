// Sending one notification to many users: batches of 500 tokens, counts, and the removal of
// the tokens the service reports as invalid.
module Multicast {
  import opened Prelude

  const MAX_FCM_TOKENS := 500

  /** Where the k-th batch starts. */
  function Offset(k: nat): nat {
    500 * k
  }

  datatype User = User(id: string, fcmToken: Option<string>)

  datatype UserToken = UserToken(userId: string, token: string)

  datatype SendResponse = Success | Failure(code: string)

  datatype BatchResponse = BatchResponse(successCount: nat, failureCount: nat, responses: seq<SendResponse>)

  /** The service's answer to its k-th batch; None when the call throws. */
  type Service = (nat, seq<string>) -> Option<BatchResponse>

  predicate Invalid(r: SendResponse) {
    r.Failure? && (r.code == "messaging/registration-token-not-registered"
                   || r.code == "messaging/invalid-registration-token")
  }

  function SuccessOf(): SendResponse -> int {
    (r: SendResponse) => if r.Success? then 1 else 0
  }

  /** One response per token, in order, and counts that add them up. */
  ghost predicate Aligned(service: Service) {
    forall k: nat, tokens: seq<string> :: service(k, tokens).Some? ==>
      var b := service(k, tokens).value;
      |b.responses| == |tokens| && b.successCount == Total(b.responses, SuccessOf())
      && b.successCount + b.failureCount == |tokens|
  }

  // ------------------------------------------------------------------------ batches

  function Min(a: nat, b: nat): nat {
    if a < b then a else b
  }

  function Batch<T>(s: seq<T>, k: nat): seq<T>
    requires Offset(k) <= |s|
  {
    s[Offset(k)..Min(Offset(k + 1), |s|)]
  }

  /** The first k batches. */
  function Batches<T>(s: seq<T>, k: nat): (bs: seq<seq<T>>)
    requires k == 0 || Offset(k - 1) < |s|
    ensures |bs| == k
  {
    if k == 0 then [] else Batches(s, k - 1) + [Batch(s, k - 1)]
  }

  function BatchCount(n: nat): nat {
    (n + 499) / 500
  }

  function Concat<T>(bs: seq<seq<T>>): seq<T> {
    if bs == [] then [] else Concat(bs[..|bs| - 1]) + bs[|bs| - 1]
  }

  lemma {:induction false} BatchesConcatenate<T>(s: seq<T>, k: nat)
    requires k == 0 || Offset(k - 1) < |s|
    ensures Concat(Batches(s, k)) == s[..Min(Offset(k), |s|)]
  {
    if k > 0 {
      BatchesConcatenate(s, k - 1);
      assert Batches(s, k)[..k - 1] == Batches(s, k - 1);
      var a, b := Offset(k - 1), Min(Offset(k), |s|);
      assert s[..a] + s[a..b] == s[..b];
    }
  }

  lemma {:induction false} BatchSizes<T>(s: seq<T>, k: nat, j: nat)
    requires (k == 0 || Offset(k - 1) < |s|) && j < k
    ensures Batches(s, k)[j] == Batch(s, j) && 1 <= |Batches(s, k)[j]| <= MAX_FCM_TOKENS
  {
    if j < k - 1 { BatchSizes(s, k - 1, j); }
  }

  /** The batches of a list are its ceil(n / 500) consecutive pieces, none empty and none over
      500, and together they are the list. */
  lemma BatchesCover<T>(s: seq<T>)
    ensures var k := BatchCount(|s|);
      && (k == 0 || Offset(k - 1) < |s|) && |s| <= Offset(k)
      && 500 * (k - 1) < |s| <= 500 * k
      && Concat(Batches(s, k)) == s
      && (forall j :: 0 <= j < k ==> 1 <= |Batches(s, k)[j]| <= 500)
      && (forall j :: 0 <= j < k - 1 ==> |Batches(s, k)[j]| == 500)
  {
    var k := BatchCount(|s|);
    BatchesConcatenate(s, k);
    assert s[..|s|] == s;
    forall j | 0 <= j < k
      ensures 1 <= |Batches(s, k)[j]| <= 500 && (j < k - 1 ==> |Batches(s, k)[j]| == 500)
    {
      BatchSizes(s, k, j);
    }
  }

  // ----------------------------------------------------------------------- the answers

  /** How many of the batches are answered before one throws. */
  function Served(service: Service, bs: seq<seq<string>>, k: nat): (n: nat)
    requires k <= |bs|
    ensures k <= n <= |bs|
    ensures n < |bs| ==> service(n, bs[n]).None?
    ensures forall j :: k <= j < n ==> service(j, bs[j]).Some?
    decreases |bs| - k
  {
    if k == |bs| || service(k, bs[k]).None? then k else Served(service, bs, k + 1)
  }

  /** The responses to the first k batches, one after the other. */
  function Answers(service: Service, bs: seq<seq<string>>, k: nat): seq<SendResponse>
    requires k <= |bs| && forall j :: 0 <= j < k ==> service(j, bs[j]).Some?
  {
    if k == 0 then [] else Answers(service, bs, k - 1) + service(k - 1, bs[k - 1]).value.responses
  }

  lemma {:induction false} AnswersLength(service: Service, s: seq<string>, bs: seq<seq<string>>, k: nat)
    requires Aligned(service) && k <= |bs| == BatchCount(|s|) && bs == Batches(s, |bs|)
    requires forall j :: 0 <= j < k ==> service(j, bs[j]).Some?
    ensures |Answers(service, bs, k)| == Min(Offset(k), |s|)
  {
    if k > 0 {
      AnswersLength(service, s, bs, k - 1);
      BatchesCover(s);
      BatchSizes(s, |bs|, k - 1);
      var b := service(k - 1, bs[k - 1]).value;
      assert |b.responses| == |bs[k - 1]|;
    }
  }

  /** The user table with the tokens of the invalid answers set to null. */
  function Cleared(table: map<string, Option<string>>, us: seq<UserToken>, answers: seq<SendResponse>)
    : map<string, Option<string>>
    requires |answers| <= |us|
  {
    map id | id in table :: if Rejected(us, answers, id) then None else table[id]
  }

  /** Some token of this user was reported as invalid by its own response. */
  predicate Rejected(us: seq<UserToken>, answers: seq<SendResponse>, id: string)
    requires |answers| <= |us|
  {
    exists i :: 0 <= i < |answers| && us[i].userId == id && Invalid(answers[i])
  }

  lemma ClearedTwice(
    table: map<string, Option<string>>, us: seq<UserToken>, first: seq<SendResponse>,
    batch: seq<UserToken>, more: seq<SendResponse>
  )
    requires |first| + |more| <= |us| && |batch| == |more| && batch == us[|first|..|first| + |more|]
    ensures Cleared(Cleared(table, us, first), batch, more) == Cleared(table, us, first + more)
  {}

  /** A user's token is cleared exactly when a response to a token of theirs carries one of the two
      codes of an invalid token; every other stored token stays. */
  lemma ClearedExactly(
    table: map<string, Option<string>>, us: seq<UserToken>, answers: seq<SendResponse>, id: string
  )
    requires |answers| <= |us| && id in table
    ensures var gone := {"messaging/registration-token-not-registered", "messaging/invalid-registration-token"};
      var cleared := exists i ::
        0 <= i < |answers| && us[i].userId == id && answers[i].Failure? && answers[i].code in gone;
      id in Cleared(table, us, answers)
      && Cleared(table, us, answers)[id] == if cleared then None else table[id]
  {}

  lemma NothingRejected(us: seq<UserToken>, answers: seq<SendResponse>, table: map<string, Option<string>>)
    requires |answers| <= |us| && Total(answers, SuccessOf()) == |answers|
    ensures Cleared(table, us, answers) == table
  {
    forall id ensures !Rejected(us, answers, id) {
      AllSucceed(answers);
    }
  }

  lemma {:induction false} SuccessesAtMost(answers: seq<SendResponse>)
    ensures Total(answers, SuccessOf()) <= |answers|
  {
    if answers != [] { SuccessesAtMost(answers[..|answers| - 1]); }
  }

  lemma {:induction false} AllSucceed(answers: seq<SendResponse>)
    requires Total(answers, SuccessOf()) == |answers|
    ensures forall i :: 0 <= i < |answers| ==> answers[i].Success?
  {
    if answers != [] {
      var n := |answers| - 1;
      SuccessesAtMost(answers[..n]);
      AllSucceed(answers[..n]);
      forall i | 0 <= i < |answers| ensures answers[i].Success? {
        if i < n { assert answers[..n][i].Success?; }
      }
    }
  }

  // ------------------------------------------------------------------------ the method

  function TokensOf(us: seq<UserToken>): (ts: seq<string>)
    ensures |ts| == |us|
  {
    seq(|us|, i requires 0 <= i < |us| => us[i].token)
  }

  /** The users that have a token, in the order found. */
  function WithTokens(users: seq<User>): seq<UserToken> {
    if users == [] then []
    else
      var u := users[|users| - 1];
      WithTokens(users[..|users| - 1])
      + if u.fcmToken.Some? && u.fcmToken.value != "" then [UserToken(u.id, u.fcmToken.value)] else []
  }

  /** Sent to are, in their order, the users found that have a token which is not empty. */
  lemma {:induction false} RecipientsExactly(users: seq<User>, more: seq<User>, u: User)
    ensures WithTokens(users + more) == WithTokens(users) + WithTokens(more)
    ensures WithTokens([u]) == match u.fcmToken
      case Some(token) => if token != "" then [UserToken(u.id, token)] else []
      case None => []
  {
    assert [u][..0] == [] && WithTokens([]) == [];
    if more == [] {
      assert users + more == users;
    } else {
      var n := |more| - 1;
      RecipientsExactly(users, more[..n], u);
      assert (users + more)[..|users + more| - 1] == users + more[..n];
    }
  }

  /** The stored tokens by user, and the batches of the multicast under way. */
  class Notifications {
    var fcmTokens: map<string, Option<string>>
    var sent: seq<seq<string>>

    method HandleBatchFailures(userBatch: seq<UserToken>, responses: seq<SendResponse>)
      requires |responses| == |userBatch|
      modifies this`fcmTokens
      ensures fcmTokens == Cleared(old(fcmTokens), userBatch, responses)
    {
      var idsToClean: seq<string> := [];
      var index := 0;
      while index < |responses|
        invariant 0 <= index <= |responses| && fcmTokens == old(fcmTokens)
        invariant forall id :: id in idsToClean <==> Rejected(userBatch, responses[..index], id)
      {
        ghost var before := responses[..index];
        assert responses[..index + 1] == before + [responses[index]];
        RejectedSnoc(userBatch, before, responses[index]);
        if Invalid(responses[index]) {
          idsToClean := idsToClean + [userBatch[index].userId];
        }
        index := index + 1;
      }
      assert responses[..index] == responses;
      fcmTokens := map id | id in fcmTokens :: if id in idsToClean then None else fcmTokens[id];
    }

    /** One batch: its counts, or nothing when the service throws. */
    method SendBatch(service: Service, tokenBatch: seq<string>, userBatch: seq<UserToken>)
      returns (r: Option<(nat, nat)>)
      requires Aligned(service) && |tokenBatch| == |userBatch|
      modifies this
      ensures sent == old(sent) + [tokenBatch]
      ensures match service(|old(sent)|, tokenBatch)
        case None => r == None && fcmTokens == old(fcmTokens)
        case Some(b) =>
          r == Some((b.successCount, b.failureCount)) && fcmTokens == Cleared(old(fcmTokens), userBatch, b.responses)
    {
      var response := service(|sent|, tokenBatch);
      sent := sent + [tokenBatch];
      if response.None? {
        return None;
      }
      var b := response.value;
      if b.failureCount > 0 {
        HandleBatchFailures(userBatch, b.responses);
      } else {
        NothingRejected(userBatch, b.responses, fcmTokens);
      }
      return Some((b.successCount, b.failureCount));
    }

    /** One turn of the loop: slices the next batch and adds its counts. */
    method SendNext(
      service: Service, us: seq<UserToken>, tokens: seq<string>, i: nat, successes: nat, failures: nat,
      ghost before: map<string, Option<string>>, ghost k: nat
    ) returns (thrown: bool, successCount: nat, failureCount: nat)
      requires Aligned(service) && tokens == TokensOf(us)
      requires Progress(service, us, before, k, fcmTokens, sent, successes, failures)
      requires k < |BatchesOf(us)| && i == Offset(k) < |tokens|
      modifies this
      ensures thrown ==> Summary(service, us, before, fcmTokens, sent, successCount, failureCount)
      ensures !thrown ==> Progress(service, us, before, k + 1, fcmTokens, sent, successCount, failureCount)
    {
      var tokenBatch := tokens[i..Min(i + MAX_FCM_TOKENS, |tokens|)];
      var userBatch := us[i..Min(i + MAX_FCM_TOKENS, |us|)];
      NextSlices(us, k);
      var counts := SendBatch(service, tokenBatch, userBatch);
      if counts.None? {
        ThrownSummary(service, us, before, k, old(fcmTokens), old(sent), successes, failures);
        return true, 0, 0;
      }
      ProgressStep(service, us, before, k, old(fcmTokens), old(sent), successes, failures);
      return false, successes + counts.value.0, failures + counts.value.1;
    }

    /** Everything about one multicast: the batches sent, the counts, the tokens removed; a
        batch that throws ends the loop with counts of zero, keeping what was already removed. */
    method SendToMultipleUsers(service: Service, ready: bool, users: seq<User>)
      returns (successCount: nat, failureCount: nat)
      requires Aligned(service)
      modifies this
      ensures !ready ==> sent == [] && fcmTokens == old(fcmTokens) && successCount == 0 && failureCount == 0
      ensures ready ==>
        Summary(service, WithTokens(users), old(fcmTokens), fcmTokens, sent, successCount, failureCount)
    {
      sent := [];
      if !ready {
        return 0, 0;
      }
      successCount, failureCount := SendBatches(service, WithTokens(users));
    }

    /** The batches of one multicast, one after the other. */
    method SendBatches(service: Service, us: seq<UserToken>) returns (successCount: nat, failureCount: nat)
      requires Aligned(service) && sent == []
      modifies this
      ensures Summary(service, us, old(fcmTokens), fcmTokens, sent, successCount, failureCount)
    {
      var tokens := TokensOf(us);
      ghost var n, before := |BatchesOf(us)|, fcmTokens;
      BatchesCover(tokens);
      ClearNone(before, us);
      successCount, failureCount := 0, 0;
      var i := 0;
      ghost var k := 0;
      while i < |tokens|
        invariant i == Offset(k) && k <= n && (k < n ==> i < |tokens|)
        invariant Progress(service, us, before, k, fcmTokens, sent, successCount, failureCount)
        decreases |tokens| - i
      {
        var thrown;
        thrown, successCount, failureCount :=
          SendNext(service, us, tokens, i, successCount, failureCount, before, k);
        if thrown {
          return;
        }
        i := i + MAX_FCM_TOKENS;
        k := k + 1;
      }
      FullSummary(service, us, before, k, fcmTokens, sent, successCount, failureCount);
    }
  }

  /** The end of a multicast: with k the number of batches answered before one throws, the
      batches sent are those and the one that threw; the tokens removed are those of the users
      whose own response was invalid; and the counts are those of the responses, or zero. */
  ghost predicate Summary(
    service: Service, us: seq<UserToken>, before: map<string, Option<string>>,
    table: map<string, Option<string>>, sent: seq<seq<string>>, successes: nat, failures: nat
  ) {
    var bs := BatchesOf(us);
    var k := Served(service, bs, 0);
    var answers := Answers(service, bs, k);
    && |answers| <= |us|
    && sent == bs[..Min(k + 1, |bs|)]
    && table == Cleared(before, us, answers)
    && (k < |bs| ==> successes == 0 && failures == 0)
    && (k == |bs| ==> |answers| == |us| && successes == Total(answers, SuccessOf()) && successes + failures == |us|)
  }

  lemma ThrownSummary(
    service: Service, us: seq<UserToken>, before: map<string, Option<string>>, k: nat,
    table: map<string, Option<string>>, sent: seq<seq<string>>, successes: nat, failures: nat
  )
    requires Progress(service, us, before, k, table, sent, successes, failures)
    requires k < |BatchesOf(us)| && service(k, BatchesOf(us)[k]).None?
    ensures Summary(service, us, before, table, sent + [BatchesOf(us)[k]], 0, 0)
  {}

  lemma FullSummary(
    service: Service, us: seq<UserToken>, before: map<string, Option<string>>, k: nat,
    table: map<string, Option<string>>, sent: seq<seq<string>>, successes: nat, failures: nat
  )
    requires Progress(service, us, before, k, table, sent, successes, failures) && k == |BatchesOf(us)|
    ensures Summary(service, us, before, table, sent, successes, failures)
  {}

  /** The state of the loop after k answered batches. */
  ghost predicate Progress(
    service: Service, us: seq<UserToken>, before: map<string, Option<string>>, k: nat,
    table: map<string, Option<string>>, sent: seq<seq<string>>, successes: nat, failures: nat
  ) {
    var bs := BatchesOf(us);
    && k <= |bs| && (forall j :: 0 <= j < k ==> service(j, bs[j]).Some?)
    && Served(service, bs, 0) == Served(service, bs, k)
    && sent == bs[..k]
    && |Answers(service, bs, k)| == Min(Offset(k), |us|)
    && table == Cleared(before, us, Answers(service, bs, k))
    && successes == Total(Answers(service, bs, k), SuccessOf())
    && successes + failures == Min(Offset(k), |us|)
  }

  lemma ProgressStep(
    service: Service, us: seq<UserToken>, before: map<string, Option<string>>, k: nat,
    table: map<string, Option<string>>, sent: seq<seq<string>>, successes: nat, failures: nat
  )
    requires Aligned(service) && Progress(service, us, before, k, table, sent, successes, failures)
    requires k < |BatchesOf(us)| && service(k, BatchesOf(us)[k]).Some?
    ensures var b := service(k, BatchesOf(us)[k]).value;
      && Offset(k) < |us| && |b.responses| == |Batch(us, k)|
      && Progress(service, us, before, k + 1, Cleared(table, Batch(us, k), b.responses), sent + [BatchesOf(us)[k]],
                  successes + b.successCount, failures + b.failureCount)
  {
    AnswersStep(service, us, k, before);
    var bs := BatchesOf(us);
    assert bs[..k + 1] == bs[..k] + [bs[k]];
  }

  function BatchesOf(us: seq<UserToken>): (bs: seq<seq<string>>) {
    BatchesCover(TokensOf(us));
    Batches(TokensOf(us), BatchCount(|us|))
  }

  lemma NextSlices(us: seq<UserToken>, k: nat)
    requires k < |BatchesOf(us)|
    ensures Offset(k) < |us|
    ensures BatchesOf(us)[k] == TokensOf(us)[Offset(k)..Min(Offset(k) + MAX_FCM_TOKENS, |us|)]
    ensures Batch(us, k) == us[Offset(k)..Min(Offset(k) + MAX_FCM_TOKENS, |us|)]
  {
    BatchesCover(TokensOf(us));
    BatchSizes(TokensOf(us), |BatchesOf(us)|, k);
  }

  /** The next batch covers the next tokens, one response each. */
  lemma BatchAligned(service: Service, us: seq<UserToken>, k: nat)
    requires Aligned(service) && k < |BatchesOf(us)| && service(k, BatchesOf(us)[k]).Some?
    ensures Offset(k) < |us| && BatchesOf(us)[k] == Batch(TokensOf(us), k)
    ensures var b := service(k, BatchesOf(us)[k]).value;
      && |b.responses| == |Batch(us, k)| && b.successCount == Total(b.responses, SuccessOf())
      && b.successCount + b.failureCount == |Batch(us, k)|
  {
    BatchesCover(TokensOf(us));
    BatchSizes(TokensOf(us), |BatchesOf(us)|, k);
  }

  lemma AnswersCover(service: Service, us: seq<UserToken>, k: nat)
    requires Aligned(service) && k <= |BatchesOf(us)|
    requires forall j :: 0 <= j < k ==> service(j, BatchesOf(us)[j]).Some?
    ensures |Answers(service, BatchesOf(us), k)| == Min(Offset(k), |us|)
  {
    AnswersLength(service, TokensOf(us), BatchesOf(us), k);
  }

  /** What one more answered batch adds to the responses, the counts and the cleared tokens. */
  lemma AnswersStep(service: Service, us: seq<UserToken>, k: nat, table: map<string, Option<string>>)
    requires Aligned(service) && k < |BatchesOf(us)|
    requires forall j :: 0 <= j <= k ==> service(j, BatchesOf(us)[j]).Some?
    ensures var bs := BatchesOf(us);
      var first, b := Answers(service, bs, k), service(k, bs[k]).value;
      && Offset(k) < |us| && |b.responses| == |Batch(us, k)|
      && |first| == Offset(k)
      && |Answers(service, bs, k + 1)| == Min(Offset(k + 1), |us|)
      && Cleared(Cleared(table, us, first), Batch(us, k), b.responses)
         == Cleared(table, us, Answers(service, bs, k + 1))
      && Total(Answers(service, bs, k + 1), SuccessOf()) == Total(first, SuccessOf()) + b.successCount
      && b.successCount + b.failureCount == |Batch(us, k)|
  {
    var bs := BatchesOf(us);
    BatchAligned(service, us, k);
    AnswersCover(service, us, k);
    AnswersCover(service, us, k + 1);
    var first, more := Answers(service, bs, k), service(k, bs[k]).value.responses;
    ClearedTwice(table, us, first, Batch(us, k), more);
    TotalAppend(first, more, SuccessOf());
  }

  lemma RejectedSnoc(us: seq<UserToken>, answers: seq<SendResponse>, r: SendResponse)
    requires |answers| < |us|
    ensures forall id :: Rejected(us, answers + [r], id) <==>
      Rejected(us, answers, id) || (us[|answers|].userId == id && Invalid(r))
  {}

  lemma ClearNone(table: map<string, Option<string>>, us: seq<UserToken>)
    ensures Cleared(table, us, []) == table
  {}
}
