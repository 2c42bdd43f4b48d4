/** At-most-once submission: look up before submitting, and again when the answer is lost. */
module StellarSubmitter {
  import opened Options
  import opened Texts

  datatype Identity = Identity(network: string, requestHash: string, submissionId: string)
  datatype Receipt = Receipt(transactionHash: string, ledgerSequence: Option<int>)

  datatype Code = AmbiguousSubmission | Configuration | ProtocolMismatch | SubmissionRejected

  /** `Raw` is an error the provider raised, passed on as it is. */
  datatype Result = Ok(receipt: Receipt) | Err(code: Code) | Raw

  const MAX_SAFE_INTEGER: int := 0x1F_FFFF_FFFF_FFFF

  predicate IsHash(s: string) {
    |s| == 64 && forall c <- s :: '0' <= c <= '9' || 'a' <= c <= 'f'
  }

  predicate ValidIdentity(i: Identity) {
    && i.network == "TESTNET" && IsHash(i.requestHash)
    && 1 <= |i.submissionId| <= 128
    && forall c <- i.submissionId :: 'A' <= c <= 'Z' || 'a' <= c <= 'z' || '0' <= c <= '9' || c in "._:-"
  }

  predicate ValidReceipt(r: Receipt) {
    IsHash(r.transactionHash) && (r.ledgerSequence.Some? ==> 1 <= r.ledgerSequence.value <= MAX_SAFE_INTEGER)
  }

  // Error messages that leave the outcome open.

  predicate OccursAt(word: string, s: string, i: int) {
    0 <= i <= |s| - |word| && forall j | 0 <= j < |word| :: Lower(s[i + j] as int) == word[j] as int
  }

  predicate Occurs(word: string, s: string) {
    exists i | 0 <= i <= |s| :: OccursAt(word, s, i)
  }

  predicate LineBreakBetween(s: string, from: nat, to: nat) {
    exists k | 0 <= k < |s| :: from <= k < to
        && (s[k] == '\n' || s[k] == '\r' || s[k] == '\U{2028}' || s[k] == '\U{2029}')
  }

  predicate SoundsAmbiguous(message: string) {
    || Occurs("timeout", message) || Occurs("timed out", message) || Occurs("network", message)
    || Occurs("transport", message) || Occurs("unavailable", message)
    || exists i, j | 0 <= i <= |message| && 0 <= j <= |message| ::
         && OccursAt("response", message, i) && OccursAt("lost", message, j)
         && i + 8 <= j && !LineBreakBetween(message, i + 8, j)
  }

  /** What the provider answers to a submission: a receipt, an error, which may be one of ours, or a thrown value
      that is no error at all. */
  datatype Response = Answer(receipt: Receipt) | Raised(message: string, ours: bool) | RaisedValue

  /** What a submission does: an effect now, an effect that lands later, or none; and the answer. */
  datatype Outcome = Outcome(effect: Option<Receipt>, delayed: Option<Receipt>, response: Response)

  /** A well-formed receipt is the receipt of an effect that has happened. */
  predicate Honest(o: Outcome) {
    (o.response.Answer? && ValidReceipt(o.response.receipt) ==> o.effect == Some(o.response.receipt)) &&
    (o.effect.Some? ==> o.delayed.None?)
  }

  /** `isAmbiguous` of what was thrown; an invalid answer throws an error of ours. */
  predicate LeavesDoubt(response: Response) {
    response.Raised? && !response.ours && SoundsAmbiguous(response.message)
  }

  datatype Posting = Posting(identity: Identity, receipt: Receipt)
  datatype Chain = Chain(ledger: seq<Posting>, inFlight: seq<Posting>)

  function Lookup(ledger: seq<Posting>, i: Identity): Option<Receipt> {
    if ledger == [] then None
    else if ledger[0].identity == i then Some(ledger[0].receipt)
    else Lookup(ledger[1..], i)
  }

  /** What resolving the secret reference comes to. */
  datatype Resolution = Resolved(publicKey: string) | Unavailable | ResolveFails

  /** A call of `submit`: what the vault resolves to, and what goes wrong. */
  datatype Attempt = Attempt(identity: Identity, resolution: Resolution, lookupFails: bool, outcome: Outcome,
                             secondLookupFails: bool)

  /** What a working lookup answers: nothing, a receipt, or the error of an invalid one. */
  function Found(chain: Chain, i: Identity): Option<Result> {
    match Lookup(chain.ledger, i)
    case None => None
    case Some(receipt) => Some(if ValidReceipt(receipt) then Ok(receipt) else Err(ProtocolMismatch))
  }

  /** The submission reaches the provider. */
  predicate Reaches(expectedKey: string, chain: Chain, a: Attempt) {
    && ValidIdentity(a.identity) && !a.lookupFails && Lookup(chain.ledger, a.identity).None?
    && a.resolution == Resolved(expectedKey)
  }

  function Posted(postings: seq<Posting>, i: Identity, receipt: Option<Receipt>): seq<Posting> {
    match receipt
    case None => postings
    case Some(r) => postings + [Posting(i, r)]
  }

  function Submitted(expectedKey: string, chain: Chain, a: Attempt): Chain {
    if !Reaches(expectedKey, chain, a) then chain
    else Chain(Posted(chain.ledger, a.identity, a.outcome.effect),
               Posted(chain.inFlight, a.identity, a.outcome.delayed))
  }

  function SubmitResult(expectedKey: string, chain: Chain, a: Attempt): Result {
    if !ValidIdentity(a.identity) then Err(ProtocolMismatch)
    else if a.lookupFails then Raw
    else if Found(chain, a.identity).Some? then Found(chain, a.identity).value
    else if a.resolution.ResolveFails? then Raw
    else if a.resolution != Resolved(expectedKey) then Err(Configuration)
    else if a.outcome.response.Answer? && ValidReceipt(a.outcome.response.receipt) then Ok(a.outcome.response.receipt)
    else if a.secondLookupFails then Raw
    else if Found(Submitted(expectedKey, chain, a), a.identity).Some? then
      Found(Submitted(expectedKey, chain, a), a.identity).value
    else Err(if LeavesDoubt(a.outcome.response) then AmbiguousSubmission else SubmissionRejected)
  }

  /** The external signing provider and its ledger. */
  class Provider {
    var ledger: seq<Posting>
    var inFlight: seq<Posting>

    function State(): Chain
      reads this
    {
      Chain(ledger, inFlight)
    }

    method Find(i: Identity) returns (found: Option<Receipt>)
      ensures found == Lookup(ledger, i)
    {
      for n := 0 to |ledger|
        invariant Lookup(ledger, i) == Lookup(ledger[n..], i)
      {
        if ledger[n].identity == i { return Some(ledger[n].receipt); }
        assert ledger[n..][1..] == ledger[n + 1..];
      }
      return None;
    }

    method Submit(i: Identity, o: Outcome) returns (response: Response)
      modifies this
      ensures State() == Chain(Posted(old(ledger), i, o.effect), Posted(old(inFlight), i, o.delayed))
      ensures response == o.response
    {
      if o.effect.Some? { ledger := ledger + [Posting(i, o.effect.value)]; }
      if o.delayed.Some? { inFlight := inFlight + [Posting(i, o.delayed.value)]; }
      return o.response;
    }
  }

  class ExternalReferenceStellarSubmitter {
    const provider: Provider
    const expectedPublicKey: string

    constructor (provider: Provider, expectedPublicKey: string)
      ensures this.provider == provider && this.expectedPublicKey == expectedPublicKey
    {
      this.provider, this.expectedPublicKey := provider, expectedPublicKey;
    }

    /** `Some(Ok)` is a receipt, `None` is null, the rest are errors. */
    method LookUp(i: Identity, fails: bool) returns (found: Option<Result>)
      ensures found == if !ValidIdentity(i) then Some(Err(ProtocolMismatch)) else if fails then Some(Raw)
                       else Found(provider.State(), i)
    {
      if !ValidIdentity(i) { return Some(Err(ProtocolMismatch)); }
      if fails { return Some(Raw); }
      var receipt := provider.Find(i);
      if receipt.None? { return None; }
      return Some(if ValidReceipt(receipt.value) then Ok(receipt.value) else Err(ProtocolMismatch));
    }

    method Submit(a: Attempt) returns (result: Result)
      modifies provider
      ensures provider.State() == Submitted(expectedPublicKey, old(provider.State()), a)
      ensures result == SubmitResult(expectedPublicKey, old(provider.State()), a)
    {
      if !ValidIdentity(a.identity) { return Err(ProtocolMismatch); }
      var recovered := LookUp(a.identity, a.lookupFails);
      if recovered.Some? { return recovered.value; }
      if a.resolution.ResolveFails? { return Raw; }
      if a.resolution.Unavailable? || a.resolution.publicKey != expectedPublicKey { return Err(Configuration); }
      var response := provider.Submit(a.identity, a.outcome);
      if response.Answer? && ValidReceipt(response.receipt) { return Ok(response.receipt); }
      var later := LookUp(a.identity, a.secondLookupFails);
      if later.Some? { return later.value; }
      return Err(if LeavesDoubt(response) then AmbiguousSubmission else SubmissionRejected);
    }
  }

  // What one call does, told by the postings on the ledger.

  lemma {:induction false} NothingFoundIff(ledger: seq<Posting>, i: Identity)
    ensures Lookup(ledger, i).None? <==> forall p <- ledger :: p.identity != i
  {
    if ledger != [] {
      NothingFoundIff(ledger[1..], i);
      assert ledger == [ledger[0]] + ledger[1..];
    }
  }

  /** Nothing is submitted for another network, twice for one posting, or under another key; whatever else is
      submitted leaves its effects behind what is there. */
  lemma SubmitsExactly(expectedKey: string, chain: Chain, a: Attempt)
    ensures var sent := && ValidIdentity(a.identity) && !a.lookupFails
                        && (forall p <- chain.ledger :: p.identity != a.identity)
                        && a.resolution.Resolved? && a.resolution.publicKey == expectedKey;
            var now, later := a.outcome.effect, a.outcome.delayed;
            && Submitted(expectedKey, chain, a).ledger
                 == chain.ledger + (if sent && now.Some? then [Posting(a.identity, now.value)] else [])
            && Submitted(expectedKey, chain, a).inFlight
                 == chain.inFlight + (if sent && later.Some? then [Posting(a.identity, later.value)] else [])
    ensures Submitted(expectedKey, chain, a) != chain ==> a.identity.network == "TESTNET"
  {
    NothingFoundIff(chain.ledger, a.identity);
  }

  /** CONFIGURATION is the answer exactly when the key is missing or another one is resolved, for a valid identity
      that a working lookup does not find. */
  lemma ConfigurationIff(expectedKey: string, chain: Chain, a: Attempt)
    ensures SubmitResult(expectedKey, chain, a) == Err(Configuration) <==>
            && ValidIdentity(a.identity) && !a.lookupFails
            && (forall p <- chain.ledger :: p.identity != a.identity)
            && (a.resolution.Unavailable? || (a.resolution.Resolved? && a.resolution.publicKey != expectedKey))
  {
    NothingFoundIff(chain.ledger, a.identity);
  }

  /** Once posted, an identity is answered with its first receipt, whatever has become of the key. */
  lemma {:induction false} FirstPostingAnswers(ledger: seq<Posting>, i: Identity, n: nat)
    requires n < |ledger| && ledger[n].identity == i && forall k | 0 <= k < n :: ledger[k].identity != i
    ensures Lookup(ledger, i) == Some(ledger[n].receipt)
  {
    if n > 0 { FirstPostingAnswers(ledger[1..], i, n - 1); }
  }

  lemma PostedIsAnswered(expectedKey: string, chain: Chain, a: Attempt, n: nat)
    requires n < |chain.ledger| && chain.ledger[n].identity == a.identity
    requires forall k | 0 <= k < n :: chain.ledger[k].identity != a.identity
    requires ValidIdentity(a.identity) && !a.lookupFails
    ensures var receipt := chain.ledger[n].receipt;
            SubmitResult(expectedKey, chain, a) == if ValidReceipt(receipt) then Ok(receipt) else Err(ProtocolMismatch)
  {
    FirstPostingAnswers(chain.ledger, a.identity, n);
  }

  /** Identities and receipts are judged before anything else is asked. */
  lemma MalformedIdentities(expectedKey: string, chain: Chain, a: Attempt)
    requires || a.identity.network != "TESTNET" || |a.identity.requestHash| != 64
             || (exists c <- a.identity.requestHash :: c !in "0123456789abcdef")
             || a.identity.submissionId == "" || |a.identity.submissionId| > 128
             || (exists c <- a.identity.submissionId :: c in " /+=#?%&")
    ensures SubmitResult(expectedKey, chain, a) == Err(ProtocolMismatch)
    ensures Submitted(expectedKey, chain, a) == chain
  {
  }

  /** A receipt that is answered is a hash in lower-case hexadecimal, with a ledger sequence that is safe and
      positive if it has one; and such an answer of the provider is passed on. */
  lemma ReceiptsAreWellFormed(expectedKey: string, chain: Chain, a: Attempt)
    ensures var result := SubmitResult(expectedKey, chain, a);
            result.Ok? ==>
              && |result.receipt.transactionHash| == 64
              && (forall c <- result.receipt.transactionHash :: c in "0123456789abcdef")
              && (result.receipt.ledgerSequence.Some? ==>
                    0 < result.receipt.ledgerSequence.value <= 9_007_199_254_740_991)
    ensures Reaches(expectedKey, chain, a) && a.outcome.response.Answer?
            && (var r := a.outcome.response.receipt;
                && |r.transactionHash| == 64 && (forall c <- r.transactionHash :: c in "0123456789abcdef")
                && (r.ledgerSequence.Some? ==> 0 < r.ledgerSequence.value < 0x20_0000_0000_0000)) ==>
              SubmitResult(expectedKey, chain, a) == Ok(a.outcome.response.receipt)
  {
    forall c: char ensures c in "0123456789abcdef" <==> '0' <= c <= '9' || 'a' <= c <= 'f' { HexCharacter(c); }
  }

  lemma HexCharacter(c: char)
    ensures c in "0123456789abcdef" <==> '0' <= c <= '9' || 'a' <= c <= 'f'
  {
    if '0' <= c <= '9' || 'a' <= c <= 'f' {
      var i := if c <= '9' then c as int - '0' as int else 10 + (c as int - 'a' as int);
      assert "0123456789abcdef"[i] == c;
    }
  }

  lemma WordOccurs(before: string, word: string, after: string)
    requires forall c <- word :: !('A' <= c <= 'Z')
    ensures Occurs(word, before + word + after)
  {
    var message := before + word + after;
    forall j | 0 <= j < |word| ensures Lower(message[|before| + j] as int) == word[j] as int {
      assert message[|before| + j] == word[j] && word[j] in word;
    }
    assert OccursAt(word, message, |before|);
  }

  /** Each of these words makes a message ambiguous, wherever it stands. */
  lemma AmbiguousWords(before: string, after: string)
    ensures SoundsAmbiguous(before + "timeout" + after) && SoundsAmbiguous(before + "timed out" + after)
    ensures SoundsAmbiguous(before + "network" + after) && SoundsAmbiguous(before + "transport" + after)
    ensures SoundsAmbiguous(before + "unavailable" + after)
  {
    WordOccurs(before, "timeout", after);
    WordOccurs(before, "timed out", after);
    WordOccurs(before, "network", after);
    WordOccurs(before, "transport", after);
    WordOccurs(before, "unavailable", after);
  }

  /** And so does a response that is lost on the same line. */
  lemma LostResponses(before: string, between: string, after: string)
    requires forall c <- between :: c !in "\n\r\U{2028}\U{2029}"
    ensures SoundsAmbiguous(before + "response" + between + "lost" + after)
  {
    var message := before + "response" + between + "lost" + after;
    var i, j := |before|, |before| + 8 + |between|;
    assert OccursAt("response", message, i) && OccursAt("lost", message, j);
    forall k | i + 8 <= k < j ensures message[k] in between { assert message[k] == between[k - i - 8]; }
  }

  // Runs of submissions and late landings.

  datatype Event = Try(attempt: Attempt) | Land(n: nat)

  function Landed(chain: Chain, n: nat): Chain {
    if n < |chain.inFlight| then
      Chain(chain.ledger + [chain.inFlight[n]], chain.inFlight[..n] + chain.inFlight[n + 1..])
    else chain
  }

  function Next(expectedKey: string, chain: Chain, e: Event): Chain {
    match e
    case Try(attempt) => Submitted(expectedKey, chain, attempt)
    case Land(n) => Landed(chain, n)
  }

  function After(expectedKey: string, chain: Chain, es: seq<Event>): Chain {
    if es == [] then chain else Next(expectedKey, After(expectedKey, chain, es[..|es| - 1]), es[|es| - 1])
  }

  predicate AllHonest(es: seq<Event>) {
    forall e <- es :: e.Try? ==> Honest(e.attempt.outcome)
  }

  function Count(postings: seq<Posting>, i: Identity): nat {
    if postings == [] then 0
    else Count(postings[..|postings| - 1], i) + if postings[|postings| - 1].identity == i then 1 else 0
  }

  lemma {:induction false} CountConcat(a: seq<Posting>, b: seq<Posting>, i: Identity)
    ensures Count(a + b, i) == Count(a, i) + Count(b, i)
  {
    if b == [] {
      assert a + b == a;
    } else {
      assert (a + b)[..|a + b| - 1] == a + b[..|b| - 1];
      CountConcat(a, b[..|b| - 1], i);
    }
  }

  lemma CountPosted(a: seq<Posting>, i: Identity, r: Option<Receipt>, k: Identity)
    ensures Count(Posted(a, i, r), k) == Count(a, k) + if r.Some? && i == k then 1 else 0
  {
    if r.Some? { assert Posted(a, i, r)[..|a|] == a; }
  }

  lemma {:induction false} LookupIffCount(ledger: seq<Posting>, i: Identity)
    ensures Lookup(ledger, i).Some? <==> Count(ledger, i) > 0
  {
    if ledger != [] {
      LookupIffCount(ledger[1..], i);
      CountConcat([ledger[0]], ledger[1..], i);
      assert [ledger[0]] + ledger[1..] == ledger;
      assert Count([ledger[0]], i) == Count([], i) + if ledger[0].identity == i then 1 else 0;
    }
  }

  lemma {:induction false} LookupAppend(ledger: seq<Posting>, more: seq<Posting>, i: Identity)
    ensures Lookup(ledger + more, i) == if Lookup(ledger, i).Some? then Lookup(ledger, i) else Lookup(more, i)
  {
    if ledger == [] {
      assert ledger + more == more;
    } else {
      assert (ledger + more)[1..] == ledger[1..] + more;
      LookupAppend(ledger[1..], more, i);
    }
  }

  /** Effects an identity has had or will have. */
  function Effects(chain: Chain, i: Identity): nat {
    Count(chain.ledger, i) + Count(chain.inFlight, i)
  }

  lemma EffectsStep(expectedKey: string, chain: Chain, e: Event, i: Identity)
    requires e.Try? ==> Honest(e.attempt.outcome)
    ensures var v := Next(expectedKey, chain, e);
            Effects(v, i) == Effects(chain, i) +
              if e.Try? && e.attempt.identity == i && Reaches(expectedKey, chain, e.attempt)
                 && (e.attempt.outcome.effect.Some? || e.attempt.outcome.delayed.Some?) then 1 else 0
    ensures e.Try? && e.attempt.identity == i && Reaches(expectedKey, chain, e.attempt) ==> Count(chain.ledger, i) == 0
  {
    LookupIffCount(chain.ledger, i);
    match e
    case Try(a) =>
      CountPosted(chain.ledger, a.identity, a.outcome.effect, i);
      CountPosted(chain.inFlight, a.identity, a.outcome.delayed, i);
    case Land(n) =>
      if n < |chain.inFlight| {
        var f := chain.inFlight;
        assert f == f[..n] + ([f[n]] + f[n + 1..]);
        CountConcat(f[..n], [f[n]] + f[n + 1..], i);
        CountConcat([f[n]], f[n + 1..], i);
        CountConcat(f[..n], f[n + 1..], i);
        CountConcat(chain.ledger, [f[n]], i);
      }
  }

  predicate NothingDelayed(es: seq<Event>) {
    forall e <- es :: e.Try? ==> e.attempt.outcome.delayed.None?
  }

  /** When effects happen before the follow-up lookup or never, at most one reaches the ledger. */
  lemma {:induction false} AtMostOneEffect(expectedKey: string, es: seq<Event>, i: Identity)
    requires AllHonest(es) && NothingDelayed(es)
    ensures Count(After(expectedKey, Chain([], []), es).ledger, i) <= 1
    ensures After(expectedKey, Chain([], []), es).inFlight == []
  {
    if es != [] {
      var init := es[..|es| - 1];
      assert forall x <- init :: x in es;
      AtMostOneEffect(expectedKey, init, i);
      EffectsStep(expectedKey, After(expectedKey, Chain([], []), init), es[|es| - 1], i);
    }
  }

  lemma LookupStays(expectedKey: string, chain: Chain, e: Event, i: Identity)
    requires Lookup(chain.ledger, i).Some?
    ensures Lookup(Next(expectedKey, chain, e).ledger, i) == Lookup(chain.ledger, i)
  {
    var v := Next(expectedKey, chain, e);
    var more := v.ledger[|chain.ledger|..];
    assert v.ledger == chain.ledger + more;
    LookupAppend(chain.ledger, more, i);
  }

  lemma {:induction false} LookupStaysForever(expectedKey: string, chain: Chain, es: seq<Event>, i: Identity)
    requires Lookup(chain.ledger, i).Some?
    ensures Lookup(After(expectedKey, chain, es).ledger, i) == Lookup(chain.ledger, i)
  {
    if es != [] {
      LookupStaysForever(expectedKey, chain, es[..|es| - 1], i);
      LookupStays(expectedKey, After(expectedKey, chain, es[..|es| - 1]), es[|es| - 1], i);
    }
  }

  /** Once a call has succeeded, every later call of the identity succeeds with that receipt and submits
      nothing, unless its lookup fails; delays do not matter. */
  lemma EverySuccessIsTheSame(expectedKey: string, chain: Chain, a: Attempt, es: seq<Event>, later: Attempt)
    requires Honest(a.outcome) && SubmitResult(expectedKey, chain, a).Ok? && later.identity == a.identity
    ensures var u := After(expectedKey, Submitted(expectedKey, chain, a), es);
            && Submitted(expectedKey, u, later) == u
            && SubmitResult(expectedKey, u, later) == if later.lookupFails then Raw
                else SubmitResult(expectedKey, chain, a)
  {
    var v := Submitted(expectedKey, chain, a);
    if Lookup(chain.ledger, a.identity).None? && a.outcome.effect.Some? {
      LookupAppend(chain.ledger, [Posting(a.identity, a.outcome.effect.value)], a.identity);
    }
    assert Lookup(v.ledger, a.identity) == Some(SubmitResult(expectedKey, chain, a).receipt);
    LookupStaysForever(expectedKey, v, es, a.identity);
  }

  /** AMBIGUOUS and REJECTED are raised exactly when the submission was made, its answer was no valid receipt,
      and the follow-up lookup worked and found nothing; which of the two depends on the error alone: AMBIGUOUS for
      one that is not ours and sounds like the transport. */
  lemma DoubtMeansNothingFound(expectedKey: string, chain: Chain, a: Attempt)
    requires Honest(a.outcome)
    ensures var result := SubmitResult(expectedKey, chain, a);
            result == Err(AmbiguousSubmission) || result == Err(SubmissionRejected) <==>
              && Reaches(expectedKey, chain, a) && !a.secondLookupFails
              && !(a.outcome.response.Answer? && ValidReceipt(a.outcome.response.receipt))
              && Lookup(Submitted(expectedKey, chain, a).ledger, a.identity).None?
    ensures var result, response := SubmitResult(expectedKey, chain, a), a.outcome.response;
            result == Err(AmbiguousSubmission) || result == Err(SubmissionRejected) ==>
              && Submitted(expectedKey, chain, a).ledger == chain.ledger
              && (result == Err(AmbiguousSubmission) <==>
                  response.Raised? && !response.ours && SoundsAmbiguous(response.message))
  {
    if a.outcome.effect.Some? {
      LookupAppend(chain.ledger, [Posting(a.identity, a.outcome.effect.value)], a.identity);
    }
  }

  /** An effect is never reported as a rejection: a lost answer is recovered with the ledger's receipt. */
  lemma LostAnswersAreRecovered(expectedKey: string, chain: Chain, a: Attempt)
    requires Honest(a.outcome) && Reaches(expectedKey, chain, a) && a.outcome.effect.Some? && !a.secondLookupFails
    ensures SubmitResult(expectedKey, chain, a) ==
              if ValidReceipt(a.outcome.effect.value) then Ok(a.outcome.effect.value) else Err(ProtocolMismatch)
  {
    LookupAppend(chain.ledger, [Posting(a.identity, a.outcome.effect.value)], a.identity);
  }

  /** A ledger receipt that fails validation blocks its identity for good, without a second effect. */
  lemma InvalidReceiptsBlock(expectedKey: string, chain: Chain, es: seq<Event>, a: Attempt)
    requires Lookup(chain.ledger, a.identity).Some? && !ValidReceipt(Lookup(chain.ledger, a.identity).value)
    requires ValidIdentity(a.identity) && !a.lookupFails
    ensures var u := After(expectedKey, chain, es);
            SubmitResult(expectedKey, u, a) == Err(ProtocolMismatch) && Submitted(expectedKey, u, a) == u
  {
    LookupStaysForever(expectedKey, chain, es, a.identity);
  }

  /** A retry before a delayed effect lands has a second effect: both end on the ledger. */
  lemma DelayedEffectsDuplicate(expectedKey: string, a: Attempt, b: Attempt)
    requires a.identity == b.identity && a.outcome.effect.None? && a.outcome.delayed.Some? && b.outcome.effect.Some?
    requires Honest(b.outcome) && Reaches(expectedKey, Chain([], []), a) && Reaches(expectedKey, Chain([], []), b)
    ensures Count(After(expectedKey, Chain([], []), [Try(a), Try(b), Land(0)]).ledger, a.identity) == 2
  {
    var first, second := Posting(a.identity, a.outcome.delayed.value), Posting(a.identity, b.outcome.effect.value);
    var es := [Try(a), Try(b), Land(0)];
    assert es[..2] == [Try(a), Try(b)] && es[..2][..1] == [Try(a)] && es[..2][..1][..0] == [];
    assert After(expectedKey, Chain([], []), es[..2][..1]) == Chain([], [first]);
    assert After(expectedKey, Chain([], []), es[..2]) == Chain([second], [first]);
    assert After(expectedKey, Chain([], []), es).ledger == [second, first];
    CountConcat([second], [first], a.identity);
    assert [second][..0] == [] && [first][..0] == [];
    assert [second] + [first] == [second, first];
  }

  // What a caller has heard about an identity, and what that leaves open.

  /** The answers to the calls of an identity, in order. */
  function Heard(expectedKey: string, es: seq<Event>, i: Identity): seq<Result> {
    if es == [] then []
    else
      var init := es[..|es| - 1];
      HeardNext(expectedKey, After(expectedKey, Chain([], []), init), Heard(expectedKey, init, i), es[|es| - 1], i)
  }

  function HeardNext(expectedKey: string, chain: Chain, h: seq<Result>, e: Event, i: Identity): seq<Result> {
    if e.Try? && e.attempt.identity == i then h + [SubmitResult(expectedKey, chain, e.attempt)] else h
  }

  /** An answer that does not tell whether the submission will have an effect. */
  predicate InDoubt(r: Result) {
    r.Raw? || r == Err(AmbiguousSubmission) || r == Err(SubmissionRejected)
  }

  lemma EveryAnswerIsOneOfThree(r: Result)
    ensures Settles(r) || InDoubt(r) || r == Err(Configuration)
  {
    if r.Err? {
      match r.code
      case AmbiguousSubmission =>
      case Configuration =>
      case ProtocolMismatch =>
      case SubmissionRejected =>
    }
  }

  /** Answers that something is on the ledger. */
  predicate Settles(r: Result) {
    r.Ok? || r == Err(ProtocolMismatch)
  }

  predicate Settled(h: seq<Result>) {
    exists r <- h :: Settles(r)
  }

  /** How many submissions the answers allow: every one in doubt before the ledger is known to hold an effect,
      and that effect. */
  function MayHaveHappened(h: seq<Result>): nat {
    if h == [] then 0
    else
      var init, last := h[..|h| - 1], h[|h| - 1];
      MayHaveHappened(init) + if !Settled(init) && (InDoubt(last) || Settles(last)) then 1 else 0
  }

  /** The caller has called again, past its configuration errors, after an answer in doubt. */
  predicate RetriedInDoubt(h: seq<Result>) {
    exists p, q | 0 <= p < q < |h| :: FirstInDoubt(h, p) && h[q] != Err(Configuration)
  }

  /** The first answer past the configuration errors is in doubt. */
  predicate FirstInDoubt(h: seq<Result>, p: nat) {
    p < |h| && InDoubt(h[p]) && forall n | 0 <= n < p :: h[n] == Err(Configuration)
  }

  /** The first answer that settles the identity. */
  function FirstSettled(h: seq<Result>): Option<Result> {
    if h == [] then None
    else if FirstSettled(h[..|h| - 1]).Some? then FirstSettled(h[..|h| - 1])
    else if Settles(h[|h| - 1]) then Some(h[|h| - 1]) else None
  }

  lemma {:induction false} FirstSettledIff(h: seq<Result>)
    ensures FirstSettled(h).Some? <==> Settled(h)
    ensures FirstSettled(h).Some? ==> Settles(FirstSettled(h).value)
  {
    if h != [] {
      FirstSettledIff(h[..|h| - 1]);
      assert h == h[..|h| - 1] + [h[|h| - 1]];
    }
  }

  /** Answers that belong together: receipts are valid, and once settled the answer is the same or a raw error. */
  predicate Coherent(h: seq<Result>) {
    if h == [] then true
    else
      var init, last := h[..|h| - 1], h[|h| - 1];
      && Coherent(init) && (last.Ok? ==> ValidReceipt(last.receipt))
      && (FirstSettled(init).Some? ==> last == FirstSettled(init).value || last.Raw?)
  }

  /** One call of a valid identity, from a chain that holds what its answers say. */
  lemma AnswerFits(expectedKey: string, chain: Chain, h: seq<Result>, a: Attempt)
    requires Honest(a.outcome) && ValidIdentity(a.identity)
    requires FirstSettled(h).Some? ==> Found(chain, a.identity) == FirstSettled(h)
    ensures var r, v := SubmitResult(expectedKey, chain, a), Submitted(expectedKey, chain, a);
            && (r.Ok? ==> ValidReceipt(r.receipt))
            && (FirstSettled(h).Some? ==> r == FirstSettled(h).value || r.Raw?)
            && (FirstSettled(h + [r]).Some? ==> Found(v, a.identity) == FirstSettled(h + [r]))
            && (Reaches(expectedKey, chain, a) && (a.outcome.effect.Some? || a.outcome.delayed.Some?) ==>
                  FirstSettled(h).None? && (InDoubt(r) || Settles(r)))
  {
    var r, v := SubmitResult(expectedKey, chain, a), Submitted(expectedKey, chain, a);
    assert (h + [r])[..|h|] == h;
    if a.outcome.effect.Some? {
      LookupAppend(chain.ledger, [Posting(a.identity, a.outcome.effect.value)], a.identity);
    }
    if Lookup(chain.ledger, a.identity).Some? { LookupStays(expectedKey, chain, Try(a), a.identity); }
  }

  lemma MayHaveHappenedAppend(h: seq<Result>, r: Result)
    ensures MayHaveHappened(h + [r]) ==
              MayHaveHappened(h) + if FirstSettled(h).None? && (InDoubt(r) || Settles(r)) then 1 else 0
  {
    assert (h + [r])[..|h|] == h;
    FirstSettledIff(h);
  }

  /** The chain holds what the answers say, and no more effects than they allow. */
  predicate Bounded(chain: Chain, i: Identity, h: seq<Result>) {
    && Coherent(h) && Effects(chain, i) <= MayHaveHappened(h)
    && (FirstSettled(h).Some? ==> Found(chain, i) == FirstSettled(h))
  }

  lemma TryStaysBounded(expectedKey: string, chain: Chain, h: seq<Result>, a: Attempt)
    requires Honest(a.outcome) && ValidIdentity(a.identity) && Bounded(chain, a.identity, h)
    ensures Bounded(Submitted(expectedKey, chain, a), a.identity, h + [SubmitResult(expectedKey, chain, a)])
  {
    var r := SubmitResult(expectedKey, chain, a);
    EffectsStep(expectedKey, chain, Try(a), a.identity);
    AnswerFits(expectedKey, chain, h, a);
    MayHaveHappenedAppend(h, r);
    assert (h + [r])[..|h|] == h;
  }

  lemma OtherStaysBounded(expectedKey: string, chain: Chain, h: seq<Result>, e: Event, i: Identity)
    requires (e.Try? ==> Honest(e.attempt.outcome) && e.attempt.identity != i) && Bounded(chain, i, h)
    ensures Bounded(Next(expectedKey, chain, e), i, h)
  {
    EffectsStep(expectedKey, chain, e, i);
    if FirstSettled(h).Some? { LookupStays(expectedKey, chain, e, i); }
  }

  /** Whatever the provider does, the answers bound the effects. */
  lemma {:induction false} AnswersBoundEffects(expectedKey: string, es: seq<Event>, i: Identity)
    requires AllHonest(es) && ValidIdentity(i)
    ensures Bounded(After(expectedKey, Chain([], []), es), i, Heard(expectedKey, es, i))
  {
    if es != [] {
      var init, e := es[..|es| - 1], es[|es| - 1];
      var h, c := Heard(expectedKey, init, i), After(expectedKey, Chain([], []), init);
      assert forall x <- init :: x in es;
      AnswersBoundEffects(expectedKey, init, i);
      if e.Try? && e.attempt.identity == i {
        TryStaysBounded(expectedKey, c, h, e.attempt);
      } else {
        OtherStaysBounded(expectedKey, c, h, e, i);
      }
    }
  }

  // Each coherent list of answers is heard in a run with as many effects as it allows.

  const INVALID: Receipt := Receipt("", None)

  function LateReceipt(): (r: Receipt)
    ensures ValidReceipt(r)
  {
    Receipt(seq(64, _ => '0'), None)
  }

  /** A call that is answered with `r`. In doubt, its effect is on its way. */
  function AttemptFor(expectedKey: string, i: Identity, r: Result, settled: bool): Attempt {
    match r
    case Ok(receipt) => Attempt(i, Resolved(expectedKey), false, Outcome(Some(receipt), None, Answer(receipt)), false)
    case Raw => Attempt(i, Resolved(expectedKey), settled, Outcome(None, Some(LateReceipt()), RaisedValue), true)
    case Err(code) =>
      match code
      case ProtocolMismatch =>
        Attempt(i, Resolved(expectedKey), false, Outcome(Some(INVALID), None, RaisedValue), false)
      case AmbiguousSubmission =>
        Attempt(i, Resolved(expectedKey), false, Outcome(None, Some(LateReceipt()), Raised("timeout", false)), false)
      case SubmissionRejected =>
        Attempt(i, Resolved(expectedKey), false, Outcome(None, Some(LateReceipt()), RaisedValue), false)
      case Configuration => Attempt(i, Unavailable, false, Outcome(None, None, RaisedValue), false)
  }

  lemma TimeoutSoundsAmbiguous()
    ensures SoundsAmbiguous("timeout")
  {
    assert OccursAt("timeout", "timeout", 0);
  }

  lemma AttemptIsAnswered(expectedKey: string, chain: Chain, i: Identity, h: seq<Result>, r: Result)
    returns (a: Attempt)
    requires ValidIdentity(i) && Coherent(h + [r])
    requires Known(chain, i, h)
    ensures a.identity == i && Honest(a.outcome) && SubmitResult(expectedKey, chain, a) == r
    ensures Known(Submitted(expectedKey, chain, a), i, h + [r])
    ensures Reaches(expectedKey, chain, a) && (a.outcome.effect.Some? || a.outcome.delayed.Some?) <==>
            FirstSettled(h).None? && (InDoubt(r) || Settles(r))
  {
    a := AttemptFor(expectedKey, i, r, FirstSettled(h).Some?);
    assert (h + [r])[..|h|] == h;
    TimeoutSoundsAmbiguous();
    FirstSettledIff(h);
    if a.outcome.effect.Some? { LookupAppend(chain.ledger, [Posting(i, a.outcome.effect.value)], i); }
  }

  /** The ledger holds exactly what the answers tell. */
  predicate Known(chain: Chain, i: Identity, h: seq<Result>) {
    if FirstSettled(h).Some? then Found(chain, i) == FirstSettled(h) else Lookup(chain.ledger, i).None?
  }

  /** And the chain has exactly the effects that they allow. */
  predicate Exhausted(chain: Chain, i: Identity, h: seq<Result>) {
    Effects(chain, i) == MayHaveHappened(h) && Known(chain, i, h)
  }

  lemma AttemptExhausts(expectedKey: string, chain: Chain, i: Identity, h: seq<Result>, r: Result)
    returns (a: Attempt)
    requires ValidIdentity(i) && Coherent(h + [r]) && Exhausted(chain, i, h)
    ensures a.identity == i && Honest(a.outcome) && SubmitResult(expectedKey, chain, a) == r
    ensures Exhausted(Submitted(expectedKey, chain, a), i, h + [r])
  {
    a := AttemptIsAnswered(expectedKey, chain, i, h, r);
    AttemptCounts(expectedKey, chain, a, h, r);
  }

  lemma AttemptCounts(expectedKey: string, chain: Chain, a: Attempt, h: seq<Result>, r: Result)
    requires Honest(a.outcome)
    requires (Reaches(expectedKey, chain, a) && (a.outcome.effect.Some? || a.outcome.delayed.Some?)) <==>
             (FirstSettled(h).None? && (InDoubt(r) || Settles(r)))
    ensures Effects(Submitted(expectedKey, chain, a), a.identity) - Effects(chain, a.identity)
            == MayHaveHappened(h + [r]) - MayHaveHappened(h)
  {
    EffectsStep(expectedKey, chain, Try(a), a.identity);
    MayHaveHappenedAppend(h, r);
  }

  lemma LastEvent(expectedKey: string, es: seq<Event>, e: Event, i: Identity)
    ensures var c := After(expectedKey, Chain([], []), es);
            && After(expectedKey, Chain([], []), es + [e]) == Next(expectedKey, c, e)
            && Heard(expectedKey, es + [e], i) == HeardNext(expectedKey, c, Heard(expectedKey, es, i), e, i)
  {
    assert (es + [e])[..|es|] == es;
  }

  /** A run of honest outcomes in which the answers are heard and all allowed effects happen. */
  predicate Realizes(expectedKey: string, es: seq<Event>, i: Identity, h: seq<Result>) {
    AllHonest(es) && Heard(expectedKey, es, i) == h && Exhausted(After(expectedKey, Chain([], []), es), i, h)
  }

  lemma RealizedBy(expectedKey: string, es: seq<Event>, a: Attempt, h: seq<Result>, r: Result)
    requires AllHonest(es) && Heard(expectedKey, es, a.identity) == h && Honest(a.outcome)
    requires var c := After(expectedKey, Chain([], []), es);
             SubmitResult(expectedKey, c, a) == r && Exhausted(Submitted(expectedKey, c, a), a.identity, h + [r])
    ensures Realizes(expectedKey, es + [Try(a)], a.identity, h + [r])
  {
    LastEvent(expectedKey, es, Try(a), a.identity);
  }

  lemma {:induction false} ScriptFor(expectedKey: string, i: Identity, h: seq<Result>) returns (es: seq<Event>)
    requires ValidIdentity(i) && Coherent(h)
    ensures Realizes(expectedKey, es, i, h)
  {
    es := [];
    if h != [] {
      var init, r := h[..|h| - 1], h[|h| - 1];
      assert h == init + [r];
      es := ScriptFor(expectedKey, i, init);
      var a := AttemptExhausts(expectedKey, After(expectedKey, Chain([], []), es), i, init, r);
      RealizedBy(expectedKey, es, a, init, r);
      es := es + [Try(a)];
    }
  }

  lemma {:induction false} NothingAllowed(h: seq<Result>)
    ensures MayHaveHappened(h) == 0 <==> forall n | 0 <= n < |h| :: h[n] == Err(Configuration)
    ensures MayHaveHappened(h) == 0 ==> !Settled(h)
  {
    if h != [] {
      var init, last := h[..|h| - 1], h[|h| - 1];
      NothingAllowed(init);
      assert h == init + [last];
      EveryAnswerIsOneOfThree(last);
      assert forall n | 0 <= n < |init| :: h[n] == init[n];
    }
  }

  /** The first answer is in doubt when more is allowed than a settled effect. */
  lemma {:induction false} FirstInDoubtIff(h: seq<Result>)
    ensures (exists p: nat :: FirstInDoubt(h, p)) <==>
        MayHaveHappened(h) >= 2 || (MayHaveHappened(h) == 1 && !Settled(h))
  {
    if h != [] {
      var init, last := h[..|h| - 1], h[|h| - 1];
      FirstInDoubtIff(init);
      NothingAllowed(init);
      assert h == init + [last];
      FirstInDoubtStep(h);
    }
  }

  lemma FirstInDoubtStep(h: seq<Result>)
    requires h != []
    ensures var init, last := h[..|h| - 1], h[|h| - 1];
            (exists p: nat :: FirstInDoubt(h, p)) <==>
            (exists p: nat :: FirstInDoubt(init, p)) || (InDoubt(last) && MayHaveHappened(init) == 0)
  {
    var init := h[..|h| - 1];
    NothingAllowed(init);
    forall p: nat ensures FirstInDoubt(h, p) <==> FirstInDoubt(init, p) || (p == |init| && FirstInDoubt(h, p)) {
      assert p < |init| ==> h[p] == init[p];
    }
    assert MayHaveHappened(init) == 0 && InDoubt(h[|init|]) ==> FirstInDoubt(h, |init|);
  }

  lemma {:induction false} TwoAllowedIff(h: seq<Result>)
    ensures MayHaveHappened(h) >= 2 <==> RetriedInDoubt(h)
  {
    if h != [] {
      var init, last := h[..|h| - 1], h[|h| - 1];
      TwoAllowedIff(init);
      FirstInDoubtIff(init);
      RetriedInDoubtStep(h);
      EveryAnswerIsOneOfThree(last);
    }
  }

  lemma RetriedInDoubtStep(h: seq<Result>)
    requires h != []
    ensures var init, last := h[..|h| - 1], h[|h| - 1];
            RetriedInDoubt(h) <==>
            RetriedInDoubt(init) || (last != Err(Configuration) && exists p: nat :: FirstInDoubt(init, p))
  {
    var init, last := h[..|h| - 1], h[|h| - 1];
    forall p: nat | p < |init| ensures FirstInDoubt(h, p) <==> FirstInDoubt(init, p) {}
    if p: nat :| FirstInDoubt(init, p) {
      assert last != Err(Configuration) ==> FirstInDoubt(h, p) && h[|init|] == last;
    }
  }

  /** What the caller may conclude. Whatever is heard about an identity, in runs with any faults, lost answers and
      late effects: it is certain that there is at most one effect exactly when there has been no further call,
      past configuration errors, after a first answer in doubt. A caller can check that before each call. */
  lemma AtMostOnceIffNotRetriedInDoubt(expectedKey: string, es: seq<Event>, i: Identity)
    requires AllHonest(es) && ValidIdentity(i)
    ensures (forall others :: AllHonest(others) && Heard(expectedKey, others, i) == Heard(expectedKey, es, i) ==>
               Effects(After(expectedKey, Chain([], []), others), i) <= 1)
            <==> !RetriedInDoubt(Heard(expectedKey, es, i))
  {
    var h := Heard(expectedKey, es, i);
    TwoAllowedIff(h);
    AnswersBoundEffects(expectedKey, es, i);
    if RetriedInDoubt(h) {
      var others := ScriptFor(expectedKey, i, h);
    } else {
      forall others | AllHonest(others) && Heard(expectedKey, others, i) == h
        ensures Effects(After(expectedKey, Chain([], []), others), i) <= 1
      {
        AnswersBoundEffects(expectedKey, others, i);
      }
    }
  }
}
