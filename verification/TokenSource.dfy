/** internal/infrastructure/mailer/zoho_token_source.go: the cached access token. Times are nanoseconds on one clock. */
module TokenSource {
  import opened Numbers
  import opened RetryPolicies

  /** zohoTokenRefreshMargin. */
  const MARGIN: int64 := 60 * SECOND

  /** How a token request ends. The provider issues a granted token `issuedAfter` the request was made. */
  datatype Answer = Answered(accessToken: string, expiresIn: int64, error: string, issuedAfter: nat) | Unreachable {
    predicate Grants() { Answered? && error == "" && accessToken != "" }
  }

  /** A call: Token at a time, with the answer a refresh would meet and how long it takes; or Invalidate. */
  datatype Op = Token(at: int, took: nat, answer: Answer) | Invalidate(at: int)

  datatype Cache = Cache(token: string, expiresAt: int) {
    predicate Serves(at: int) { token != "" && at < expiresAt }
  }

  const EMPTY := Cache("", 0)

  /** time.Duration(expiresIn)*time.Second - zohoTokenRefreshMargin. */
  function Lifetime(expiresIn: int64): int64 { Wrap64(Wrap64(expiresIn * SECOND) - MARGIN) }

  function After(c: Cache, op: Op): Cache {
    match op
    case Invalidate(_) => c.(token := "")
    case Token(at, took, answer) =>
      if c.Serves(at) || !answer.Grants() then c else Cache(answer.accessToken, at + took + Lifetime(answer.expiresIn))
  }

  function Result(c: Cache, op: Op): Option<string>
    requires op.Token?
  {
    if c.Serves(op.at) then Some(c.token) else if op.answer.Grants() then Some(op.answer.accessToken) else None
  }

  class Source {
    var token: string
    var expiresAt: int

    constructor ()
      ensures Contents() == EMPTY
    {
      token, expiresAt := "", 0;
    }

    function Contents(): Cache
      reads this
    {
      Cache(token, expiresAt)
    }

    /** A token request; `now` is the time when it ends. */
    method Refresh(at: int, took: nat, answer: Answer) returns (granted: Option<Answer>, now: int)
      ensures now == at + took && granted == if answer.Grants() then Some(answer) else None
    {
      now := at + took;
      if answer.Unreachable? { return None, now; }
      if answer.error != "" || answer.accessToken == "" { return None, now; }
      granted := Some(answer);
    }

    method Token(at: int, took: nat, answer: Answer) returns (result: Option<string>)
      modifies this
      ensures Contents() == After(old(Contents()), Op.Token(at, took, answer))
      ensures result == Result(old(Contents()), Op.Token(at, took, answer))
    {
      if token != "" && at < expiresAt { return Some(token); }
      var granted, now := Refresh(at, took, answer);
      if granted.None? { return None; }
      token := granted.value.accessToken;
      expiresAt := now + Wrap64(Wrap64(granted.value.expiresIn * SECOND) - MARGIN);
      result := Some(token);
    }

    method Invalidate(at: int)
      modifies this
      ensures Contents() == After(old(Contents()), Op.Invalidate(at))
    {
      token := "";
    }
  }

  // ---------------------------------------------------------------- whole runs

  /** The calls run one after the other, under the mutex. */
  predicate Ordered(ops: seq<Op>) {
    forall i, j :: 0 <= i < j < |ops| ==> Ends(ops[i]) <= ops[j].at
  }

  function Ends(op: Op): int { if op.Token? then op.at + op.took else op.at }

  function CacheAfter(ops: seq<Op>): Cache {
    if |ops| == 0 then EMPTY else After(CacheAfter(ops[..|ops| - 1]), ops[|ops| - 1])
  }

  predicate FromCache(ops: seq<Op>, k: nat)
    requires k < |ops|
  {
    ops[k].Token? && CacheAfter(ops[..k]).Serves(ops[k].at)
  }

  /** Call k asked the provider for a token. */
  predicate Refreshes(ops: seq<Op>, k: nat)
    requires k < |ops|
  {
    ops[k].Token? && !FromCache(ops, k)
  }

  predicate Renews(ops: seq<Op>, k: nat)
    requires k < |ops|
  {
    Refreshes(ops, k) && ops[k].answer.Grants()
  }

  /** Looking at fewer calls changes nothing about an earlier one. */
  lemma {:induction false} PrefixSame(ops: seq<Op>, k: nat, i: nat)
    requires i < k <= |ops|
    ensures ops[..k][i] == ops[i] && ops[..k][..i] == ops[..i] && ops[..k][..i + 1] == ops[..i + 1]
    ensures FromCache(ops[..k], i) == FromCache(ops, i) && Renews(ops[..k], i) == Renews(ops, i)
  {
    assert ops[..k][..i] == ops[..i] && ops[..k][..i + 1] == ops[..i + 1];
  }

  /** Call i served the cache, or found it expired. */
  predicate Untouched(ops: seq<Op>, i: nat, expiresAt: int)
    requires i < |ops|
  {
    ops[i].Token? && (FromCache(ops, i) || ops[i].at >= expiresAt)
  }

  /** A call that grants nothing new leaves what was cached. */
  lemma {:induction false} CacheKept(ops: seq<Op>)
    requires |ops| > 0 && !Renews(ops, |ops| - 1) && CacheAfter(ops).token != ""
    ensures CacheAfter(ops) == CacheAfter(ops[..|ops| - 1])
    ensures Untouched(ops, |ops| - 1, CacheAfter(ops).expiresAt)
  {
  }

  lemma {:induction false} CacheRenewed(ops: seq<Op>)
    requires |ops| > 0 && Renews(ops, |ops| - 1)
    ensures var op := ops[|ops| - 1];
            CacheAfter(ops) == Cache(op.answer.accessToken, Ends(op) + Lifetime(op.answer.expiresIn))
  {
  }

  /** Whatever is cached was granted by some call, and since then no call invalidated it, and a call that did ask again
      found it expired and was refused. */
  lemma {:induction false} CacheOrigin(ops: seq<Op>) returns (j: nat)
    requires CacheAfter(ops).token != ""
    ensures j < |ops| && Renews(ops, j)
    ensures CacheAfter(ops) == Cache(ops[j].answer.accessToken, Ends(ops[j]) + Lifetime(ops[j].answer.expiresIn))
    ensures forall i :: j < i < |ops| ==> Untouched(ops, i, CacheAfter(ops).expiresAt)
  {
    var n := |ops| - 1;
    if Renews(ops, n) {
      j := n;
      CacheRenewed(ops);
    } else {
      CacheKept(ops);
      j := CacheOrigin(ops[..n]);
      PrefixSame(ops, n, j);
      forall i | j < i < n
        ensures Untouched(ops, i, CacheAfter(ops).expiresAt)
      {
        PrefixSame(ops, n, i);
        assert Untouched(ops[..n], i, CacheAfter(ops).expiresAt);
      }
    }
  }

  /** What call k returns; None is an error. */
  function Returned(ops: seq<Op>, k: nat): Option<string>
    requires k < |ops| && ops[k].Token?
  {
    Result(CacheAfter(ops[..k]), ops[k])
  }

  /** Call k returns the token that call j was granted, and every call after j up to k was served from the cache. */
  ghost predicate Returns(ops: seq<Op>, k: nat, j: nat)
    requires k < |ops|
  {
    && ops[k].Token? && j <= k && Renews(ops, j) && (forall i :: j < i <= k ==> FromCache(ops, i))
    && Returned(ops, k) == Some(ops[j].answer.accessToken)
  }

  /** A call returns an error exactly when it asks the provider and is refused. Otherwise it returns the token of the
      last call that was granted one: its own, or an earlier one whose lifetime, counted from the end of that call, is
      not over. */
  lemma {:induction false} ReturnsLastGranted(ops: seq<Op>, k: nat) returns (j: nat)
    requires Ordered(ops) && k < |ops| && ops[k].Token?
    ensures Returned(ops, k).None? <==> Refreshes(ops, k) && !ops[k].answer.Grants()
    ensures Returned(ops, k).Some? ==>
              && Returns(ops, k, j)
              && (j < k ==> ops[k].at < Ends(ops[j]) + Lifetime(ops[j].answer.expiresIn))
  {
    j := k;
    if FromCache(ops, k) { j := ServedIsLastGranted(ops, k); }
  }

  /** Call j was granted a token that nobody has invalidated before call k, and whose lifetime is not over by then. */
  predicate Live(ops: seq<Op>, j: nat, k: nat)
    requires k < |ops|
  {
    && j < k && Renews(ops, j) && (forall i :: j < i <= k ==> ops[i].Token?)
    && ops[k].at < Ends(ops[j]) + Lifetime(ops[j].answer.expiresIn)
  }

  /** A call is served from the cache, without asking the provider, exactly when some earlier call's token is still
      live. */
  lemma {:induction false} ServedIffLive(ops: seq<Op>, k: nat)
    requires Ordered(ops) && k < |ops|
    ensures FromCache(ops, k) <==> exists j :: Live(ops, j, k)
  {
    if FromCache(ops, k) {
      var j := ServedIsLive(ops, k);
    } else if j :| Live(ops, j, k) {
      LiveIsServed(ops, j, k);
    }
  }

  lemma {:induction false} ServedIsLive(ops: seq<Op>, k: nat) returns (j: nat)
    requires Ordered(ops) && k < |ops| && FromCache(ops, k)
    ensures Live(ops, j, k)
  {
    j := ServedIsLastGranted(ops, k);
    forall i | j < i <= k ensures ops[i].Token? { assert FromCache(ops, i); }
  }

  lemma {:induction false} LiveIsServed(ops: seq<Op>, j: nat, k: nat)
    requires Ordered(ops) && k < |ops| && Live(ops, j, k)
    ensures FromCache(ops, k)
    ensures CacheAfter(ops[..k]) == Cache(ops[j].answer.accessToken, Ends(ops[j]) + Lifetime(ops[j].answer.expiresIn))
  {
    var before := ops[..k];
    PrefixSame(ops, k, k - 1);
    if j == k - 1 {
      CacheRenewed(before);
    } else {
      assert Ends(ops[k - 1]) <= ops[k].at;
      LiveIsServed(ops, j, k - 1);
      assert before[..k - 1] == ops[..k - 1];
    }
  }

  lemma {:induction false} ServedIsLastGranted(ops: seq<Op>, k: nat) returns (j: nat)
    requires Ordered(ops) && k < |ops| && FromCache(ops, k)
    ensures j < k && Renews(ops, j) && ops[j].answer.accessToken == CacheAfter(ops[..k]).token
    ensures forall i :: j < i <= k ==> FromCache(ops, i)
    ensures ops[k].at < Ends(ops[j]) + Lifetime(ops[j].answer.expiresIn)
  {
    var before := ops[..k];
    j := CacheOrigin(before);
    PrefixSame(ops, k, j);
    forall i | j < i < k
      ensures FromCache(ops, i)
    {
      PrefixSame(ops, k, i);
      assert Untouched(before, i, CacheAfter(before).expiresAt) && Ends(ops[i]) <= ops[k].at;
    }
  }

  // ---------------------------------------------------------------- expiry at the provider

  /** When the provider expires a token granted by this call. */
  function ProviderExpiry(op: Op): int
    requires op.Token? && op.answer.Answered?
  {
    op.at + op.answer.issuedAfter + op.answer.expiresIn * SECOND
  }

  /** Every token is issued while its request is under way. */
  predicate IssuedInTime(ops: seq<Op>) {
    forall i :: 0 <= i < |ops| && ops[i].Token? && ops[i].answer.Answered? ==> ops[i].answer.issuedAfter <= ops[i].took
  }

  /** The lifetime is the announced one less the margin exactly when that fits in an int64. */
  lemma {:induction false} LifetimeExactIff(expiresIn: int64)
    ensures Lifetime(expiresIn) == expiresIn * SECOND - MARGIN <==> -TWO_63 <= expiresIn * SECOND - MARGIN < TWO_63
  {
  }

  predicate LifetimesFit(ops: seq<Op>) {
    forall i :: 0 <= i < |ops| && ops[i].Token? && ops[i].answer.Answered? ==>
      -TWO_63 <= ops[i].answer.expiresIn * SECOND - MARGIN < TWO_63
  }

  predicate RefreshesTakeAtMost(ops: seq<Op>, limit: int) {
    forall i :: 0 <= i < |ops| && ops[i].Token? ==> ops[i].took <= limit
  }

  /** No call returns a token from an earlier call that the provider has expired. */
  ghost predicate ReturnsUnexpired(ops: seq<Op>) {
    forall j, k :: 0 <= j < k < |ops| && Returns(ops, k, j) ==> ops[k].at < ProviderExpiry(ops[j])
  }

  predicate Plausible(ops: seq<Op>) { Ordered(ops) && IssuedInTime(ops) && LifetimesFit(ops) }

  lemma {:induction false} MarginCovers(ops: seq<Op>)
    requires Plausible(ops) && RefreshesTakeAtMost(ops, MARGIN)
    ensures ReturnsUnexpired(ops)
  {
    forall j, k | 0 <= j < k < |ops| && Returns(ops, k, j)
      ensures ops[k].at < ProviderExpiry(ops[j])
    {
      var origin := ServedIsLastGranted(ops, k);
      assert origin == j;
      LifetimeExactIff(ops[j].answer.expiresIn);
    }
  }

  /** A refresh that takes longer can lead to an expired token being returned from the cache. */
  lemma {:induction false} SlowRefreshServesExpired(limit: int) returns (ops: seq<Op>)
    requires limit > MARGIN
    ensures Plausible(ops) && RefreshesTakeAtMost(ops, limit) && !ReturnsUnexpired(ops)
  {
    var took := MARGIN + 1;
    var first := Op.Token(0, took, Answered("t", 3600, "", 0));
    var second := Op.Token(3600 * SECOND, 0, Unreachable);
    ops := [first, second];
    LifetimeExactIff(3600);
    assert ops[..1] == [first] && ops[..0] == [] && [first][..0] == [];
    assert CacheAfter([first]) == After(EMPTY, first) == Cache("t", took + 3600 * SECOND - MARGIN);
    assert Returns(ops, 1, 0) && ops[1].at == ProviderExpiry(ops[0]);
  }

  /** No call, in any run, returns from the cache a token that the provider has expired exactly when refreshes take no
      longer than a minute. */
  lemma {:induction false} UnexpiredIffWithinMargin(limit: int)
    ensures (forall ops :: Plausible(ops) && RefreshesTakeAtMost(ops, limit) ==> ReturnsUnexpired(ops))
            <==> limit <= 60 * SECOND
  {
    if limit <= MARGIN {
      forall ops | Plausible(ops) && RefreshesTakeAtMost(ops, limit) ensures ReturnsUnexpired(ops) {
        MarginCovers(ops);
      }
    } else {
      var ops := SlowRefreshServesExpired(limit);
    }
  }

  // ---------------------------------------------------------------- how often the provider is asked

  function Count(ops: seq<Op>, counts: (Cache, Op) -> bool): nat {
    if |ops| == 0 then 0
    else Count(ops[..|ops| - 1], counts) + if counts(CacheAfter(ops[..|ops| - 1]), ops[|ops| - 1]) then 1 else 0
  }

  predicate Asks(c: Cache, op: Op) { op.Token? && !c.Serves(op.at) }

  predicate FindsExpired(c: Cache, op: Op) { op.Token? && c.token != "" && op.at >= c.expiresAt }

  predicate IsRefused(c: Cache, op: Op) { Asks(c, op) && !op.answer.Grants() }

  predicate Invalidates(c: Cache, op: Op) { op.Invalidate? }

  /** The provider is asked at most once, plus once for every invalidation, every expiry found and every refused
      request. */
  lemma {:induction false} RefreshesBounded(ops: seq<Op>)
    ensures Count(ops, Asks) <= Count(ops, Invalidates) + Count(ops, FindsExpired) + Count(ops, IsRefused)
                                + if CacheAfter(ops).token == "" then 0 else 1
  {
    if |ops| > 0 { RefreshesBounded(ops[..|ops| - 1]); }
  }
}
