/** Whole-model requests: which wallet each was handed to, and whose answers are stored.

    `pending` caches the requests waiting for an answer and whether their prompt is known. A digest of the content is
    compared with what the miner claims; the digest function itself is a parameter. */
module Assignments {
  import opened Common
  import opened Bytes
  import L = Ledgers

  /** An assignment line that reached a wallet. */
  datatype Sent = Sent(wallet: Wallet, request: RequestId)

  /** A stored answer and the row it became. */
  datatype Answer = Answer(wallet: Wallet, request: RequestId, hash: string, hex: string, id: nat)

  datatype Desk = Desk(assignments: map<RequestId, Wallet>, pending: map<RequestId, bool>, ledger: L.Ledger,
                       sent: seq<Sent>, answers: seq<Answer>)

  datatype Refusal = UnknownRequest | NotAssignedToCaller | AlreadyAnswered | NotHex | HashMismatch

  /** What the chain says of a model's manifest: sharded models are served elsewhere. */
  datatype Manifest = Active | NotActive | Unknown

  type Digest = seq<u8> -> seq<u8>

  /** `Prompt` knows whether the request can be cached if it is not yet; `Assign` offers one candidate to a wallet. */
  datatype Event =
    | Listed(request: RequestId)
    | Prompt(request: RequestId, known: bool)
    | Assign(request: RequestId, manifest: Manifest, picked: Option<Wallet>, reached: bool)
    | Submit(wallet: Wallet, request: RequestId, hash: string, hex: string)
    | Disconnect(wallet: Wallet)
    | Table(event: L.Event, after: L.Ledger)

  // ---- Comparing hashes ---------------------------------------------------------------------------------------------

  function Lower(c: char): char {
    if 'A' <= c <= 'Z' then (c as int - 'A' as int + 'a' as int) as char else c
  }

  predicate EqualIgnoringCase(a: string, b: string) {
    |a| == |b| && forall i | 0 <= i < |a| :: Lower(a[i]) == Lower(b[i])
  }

  lemma DigitMatches(d: nat, c: char)
    requires d < 16
    ensures Lower(DIGITS[d]) == Lower(c) <==> HexValue(c) == Some(d)
  {
    assert DIGITS[0..10] == "0123456789" && DIGITS[10..] == "abcdef";
  }

  /** The textual comparison is equality of the bytes: it accepts every spelling of the digest and nothing else. */
  lemma {:induction false} SpellingIsExact(bytes: seq<u8>, h: string)
    ensures EqualIgnoringCase(HexEncode(bytes), h) <==> HexDecode(h) == Some(bytes)
  {
    if bytes != [] && |h| >= 2 {
      var text := HexEncode(bytes);
      SpellingIsExact(bytes[1..], h[2..]);
      SplitComparison(text, h);
      assert text[2..] == HexEncode(bytes[1..]);
      assert text[0] == DIGITS[bytes[0] / 16] && text[1] == DIGITS[bytes[0] % 16];
      hide HexEncode, EqualIgnoringCase, Lower;
      DigitMatches(bytes[0] / 16, h[0]);
      DigitMatches(bytes[0] % 16, h[1]);
      FirstByte(bytes, h);
    }
  }

  lemma FirstByte(bytes: seq<u8>, h: string)
    requires bytes != [] && |h| >= 2
    ensures HexDecode(h) == Some(bytes) <==>
              && HexValue(h[0]) == Some(bytes[0] / 16) && HexValue(h[1]) == Some(bytes[0] % 16)
              && HexDecode(h[2..]) == Some(bytes[1..])
  {
    assert bytes == [bytes[0]] + bytes[1..];
    assert 16 * (bytes[0] / 16) + bytes[0] % 16 == bytes[0];
    if HexDecode(h) == Some(bytes) {
      var a, b, rest := HexValue(h[0]).value, HexValue(h[1]).value, HexDecode(h[2..]).value;
      assert HexDecode(h).value[0] == a * 16 + b;
      assert HexDecode(h).value[1..] == rest;
    }
  }

  lemma SplitComparison(a: string, b: string)
    requires |a| >= 2 && |b| >= 2
    ensures EqualIgnoringCase(a, b) <==>
              Lower(a[0]) == Lower(b[0]) && Lower(a[1]) == Lower(b[1]) && EqualIgnoringCase(a[2..], b[2..])
  {
    if EqualIgnoringCase(a[2..], b[2..]) && Lower(a[0]) == Lower(b[0]) && Lower(a[1]) == Lower(b[1]) {
      forall i | 0 <= i < |a| ensures Lower(a[i]) == Lower(b[i]) {
        if i >= 2 { assert Lower(a[2..][i - 2]) == Lower(b[2..][i - 2]); }
      }
    }
    if EqualIgnoringCase(a, b) {
      forall i | 0 <= i < |a| - 2 ensures Lower(a[2..][i]) == Lower(b[2..][i]) {
        assert Lower(a[i + 2]) == Lower(b[i + 2]);
      }
    }
  }

  // ---- One event ----------------------------------------------------------------------------------------------------

  /** Why an answer is turned away, if it is. */
  function Refused(d: Desk, digest: Digest, wallet: Wallet, request: RequestId, hash: string,
                   hex: string): Option<Refusal> {
    if request !in d.assignments then Some(UnknownRequest)
    else if d.assignments[request] != wallet then Some(NotAssignedToCaller)
    else if L.HasActive(d.ledger.rows, request) then Some(AlreadyAnswered)
    else if HexDecode(hex).None? then Some(NotHex)
    else if !EqualIgnoringCase(HexEncode(digest(HexDecode(hex).value)), hash) then Some(HashMismatch)
    else None
  }

  function OnSubmit(d: Desk, digest: Digest, wallet: Wallet, request: RequestId, hash: string, hex: string): Desk {
    if Refused(d, digest, wallet, request, hash, hex).Some? then d
    else Desk(d.assignments - {request}, d.pending - {request}, L.OnSubmit(d.ledger, wallet, request), d.sent,
              d.answers + [Answer(wallet, request, hash, hex, |d.ledger.rows|)])
  }

  /** A listed request is cached without a prompt, unless it is cached or has a submission that has not failed. */
  function OnListed(d: Desk, request: RequestId): Desk {
    if request in d.pending || L.HasActive(d.ledger.rows, request) then d
    else d.(pending := d.pending[request := false])
  }

  function OnPrompt(d: Desk, request: RequestId, known: bool): Desk {
    if request in d.pending || known then d.(pending := d.pending[request := true]) else d
  }

  predicate Waiting(d: Desk, request: RequestId) {
    request in d.pending && d.pending[request] && request !in d.assignments
  }

  /** An assignment whose line could not be delivered is taken back at once. */
  function OnAssign(d: Desk, request: RequestId, manifest: Manifest, wallet: Option<Wallet>, reached: bool): Desk {
    if !Waiting(d, request) || !manifest.NotActive? || wallet.None? || !reached then d
    else d.(assignments := d.assignments[request := wallet.value], sent := d.sent + [Sent(wallet.value, request)])
  }

  function OnDisconnect(d: Desk, wallet: Wallet): Desk {
    d.(assignments := map r | r in d.assignments && d.assignments[r] != wallet :: d.assignments[r])
  }

  /** The table moves by its own steps; other engines submit to it too. */
  ghost predicate Possible(d: Desk, e: Event) {
    e.Table? ==> L.Step(d.ledger, e.event, e.after)
  }

  function Step(d: Desk, digest: Digest, e: Event): Desk {
    match e
    case Listed(request) => OnListed(d, request)
    case Prompt(request, known) => OnPrompt(d, request, known)
    case Assign(request, manifest, wallet, reached) => OnAssign(d, request, manifest, wallet, reached)
    case Submit(wallet, request, hash, hex) => OnSubmit(d, digest, wallet, request, hash, hex)
    case Disconnect(wallet) => OnDisconnect(d, wallet)
    case Table(_, after) => d.(ledger := after)
  }

  function Empty(): Desk {
    Desk(map[], map[], L.Empty(), [], [])
  }

  function Follow(d: Desk, digest: Digest, run: seq<Event>): Desk
    decreases |run|
  {
    if run == [] then d else Follow(Step(d, digest, run[0]), digest, run[1..])
  }

  lemma FollowNothing(d: Desk, digest: Digest)
    ensures Follow(d, digest, []) == d
  {
  }

  lemma {:induction false} FollowTwice(d: Desk, digest: Digest, first: seq<Event>, second: seq<Event>)
    ensures Follow(d, digest, first + second) == Follow(Follow(d, digest, first), digest, second)
    decreases |first|
  {
    hide Step;
    if first == [] {
      assert first + second == second;
    } else {
      FollowTwice(Step(d, digest, first[0]), digest, first[1..], second);
      assert (first + second)[1..] == first[1..] + second;
    }
  }

  lemma FollowSnoc(d: Desk, digest: Digest, run: seq<Event>, e: Event)
    ensures Follow(d, digest, run + [e]) == Step(Follow(d, digest, run), digest, e)
  {
    hide Step;
    FollowTwice(d, digest, run, [e]);
    var d2 := Follow(d, digest, run);
    assert [e][1..] == [];
    assert Follow(d2, digest, [e]) == Follow(Step(d2, digest, e), digest, []);
  }

  ghost predicate PossibleRun(d: Desk, digest: Digest, run: seq<Event>)
    decreases |run|
  {
    run != [] ==> Possible(d, run[0]) && PossibleRun(Step(d, digest, run[0]), digest, run[1..])
  }

  // ---- Only the assigned wallet answers --------------------------------------------------------------------------

  /** The answer came from a wallet the request was handed to, its hash is the digest of its content, and the row it
      became still names that wallet and that request. */
  ghost predicate Sound(d: Desk, digest: Digest, a: Answer) {
    && Sent(a.wallet, a.request) in d.sent
    && HexDecode(a.hex).Some? && HexDecode(a.hash) == Some(digest(HexDecode(a.hex).value))
    && a.id < |d.ledger.rows| && d.ledger.rows[a.id].wallet == a.wallet && d.ledger.rows[a.id].request == a.request
  }

  ghost predicate Inv(d: Desk, digest: Digest) {
    && L.Inv(d.ledger)
    && (forall r | r in d.assignments :: Sent(d.assignments[r], r) in d.sent && r in d.pending && d.pending[r])
    && (forall i | 0 <= i < |d.answers| :: Sound(d, digest, d.answers[i]))
    && (forall i, j | 0 <= i < j < |d.answers| :: d.answers[i].id < d.answers[j].id)
  }

  /** Rows are kept, so answers stay sound. */
  lemma TableKeeps(d: Desk, digest: Digest, e: L.Event, after: L.Ledger)
    requires Inv(d, digest) && L.Step(d.ledger, e, after)
    ensures Inv(d.(ledger := after), digest)
  {
    hide L.Step, L.Inv;
    L.StepKeeps(d.ledger, e, after);
  }

  lemma SubmitKeeps(d: Desk, digest: Digest, wallet: Wallet, request: RequestId, hash: string, hex: string)
    requires Inv(d, digest)
    ensures Inv(OnSubmit(d, digest, wallet, request, hash, hex), digest)
  {
    hide L.Inv, HexDecode, HexEncode;
    if Refused(d, digest, wallet, request, hash, hex).None? {
      var d2 := OnSubmit(d, digest, wallet, request, hash, hex);
      SpellingIsExact(digest(HexDecode(hex).value), hash);
      assert L.Step(d.ledger, L.Submit(wallet, request), d2.ledger);
      TableKeeps(d, digest, L.Submit(wallet, request), d2.ledger);
      assert forall i | 0 <= i < |d.answers| :: Sound(d.(ledger := d2.ledger), digest, d.answers[i]);
    }
  }

  lemma StepKeeps(d: Desk, digest: Digest, e: Event)
    requires Inv(d, digest) && Possible(d, e)
    ensures Inv(Step(d, digest, e), digest)
  {
    hide L.Inv, L.Step, HexDecode, HexEncode;
    match e
    case Submit(wallet, request, hash, hex) => SubmitKeeps(d, digest, wallet, request, hash, hex);
    case Table(event, after) => TableKeeps(d, digest, event, after);
    case _ =>
  }

  lemma {:induction false} RunKeeps(d: Desk, digest: Digest, run: seq<Event>)
    requires Inv(d, digest) && PossibleRun(d, digest, run)
    ensures Inv(Follow(d, digest, run), digest)
    decreases |run|
  {
    if run != [] {
      StepKeeps(d, digest, run[0]);
      RunKeeps(Step(d, digest, run[0]), digest, run[1..]);
    }
  }

  /** Over every run: every stored answer came from a wallet its request had been handed to, with a hash that is the
      digest of its content, and sits in a row of its own that names that wallet and that request for good. */
  lemma OnlyAssignedWalletsAnswer(digest: Digest, run: seq<Event>, i: nat)
    requires PossibleRun(Empty(), digest, run) && i < |Follow(Empty(), digest, run).answers|
    ensures var d := Follow(Empty(), digest, run);
            && Sound(d, digest, d.answers[i])
            && forall j | 0 <= j < |d.answers| && j != i :: d.answers[j].id != d.answers[i].id
  {
    RunKeeps(Empty(), digest, run);
  }

  // ---- When an answered request is handed out again --------------------------------------------------------------

  predicate Spoken(d: Desk, request: RequestId) {
    request !in d.assignments && (request in d.pending ==> !d.pending[request])
  }

  /** Storing an answer leaves its request neither assigned nor cached. */
  lemma AnswerSpeaksFor(d: Desk, digest: Digest, wallet: Wallet, request: RequestId, hash: string, hex: string)
    requires Refused(d, digest, wallet, request, hash, hex).None?
    ensures var d2 := OnSubmit(d, digest, wallet, request, hash, hex);
            Spoken(d2, request) && request !in d2.pending && L.HasActive(d2.ledger.rows, request)
  {
    var d2 := OnSubmit(d, digest, wallet, request, hash, hex);
    assert d2.ledger.rows[|d.ledger.rows|].request == request;
  }

  /** While no prompt arrives for it, nothing hands the request out, however often it is listed and whatever becomes
      of its row. */
  lemma {:induction false} StaysSpoken(d: Desk, digest: Digest, run: seq<Event>, request: RequestId)
    requires Spoken(d, request)
    requires forall i | 0 <= i < |run| :: !(run[i].Prompt? && run[i].request == request)
    ensures Spoken(Follow(d, digest, run), request)
    decreases |run|
  {
    if run != [] {
      assert Spoken(Step(d, digest, run[0]), request) by { hide L.HasActive, Refused; }
      StaysSpoken(Step(d, digest, run[0]), digest, run[1..], request);
    }
  }

  /** After a run that ends in an accepted answer, its request is handed out again only if its prompt is posted again,
      however often it is listed and whatever becomes of its row. */
  lemma HandedOutOnlyAfterPrompt(d: Desk, digest: Digest, wallet: Wallet, request: RequestId, hash: string, hex: string,
                                 run: seq<Event>)
    requires Refused(d, digest, wallet, request, hash, hex).None?
    requires request in Follow(OnSubmit(d, digest, wallet, request, hash, hex), digest, run).assignments
    ensures exists i :: 0 <= i < |run| && run[i].Prompt? && run[i].request == request
  {
    AnswerSpeaksFor(d, digest, wallet, request, hash, hex);
    hide Refused, OnSubmit;
    if forall i | 0 <= i < |run| :: !(run[i].Prompt? && run[i].request == request) {
      StaysSpoken(OnSubmit(d, digest, wallet, request, hash, hex), digest, run, request);
    }
  }

  /** And posting it again is enough: the standing answer does not prevent the hand-out, it only makes whatever the
      second wallet delivers be refused. */
  lemma PromptHandsOutAgain(d: Desk, digest: Digest, wallet: Wallet, request: RequestId, hash: string, hex: string,
                            w: Wallet, hash2: string, hex2: string)
    requires Refused(d, digest, wallet, request, hash, hex).None?
    ensures var again := [Prompt(request, true), Assign(request, NotActive, Some(w), true)];
            var d2 := Follow(OnSubmit(d, digest, wallet, request, hash, hex), digest, again);
            && request in d2.assignments && d2.assignments[request] == w && Sent(w, request) in d2.sent
            && Refused(d2, digest, w, request, hash2, hex2) == Some(AlreadyAnswered)
  {
    AnswerSpeaksFor(d, digest, wallet, request, hash, hex);
    var d1, e1, e2 := OnSubmit(d, digest, wallet, request, hash, hex), Prompt(request, true),
                      Assign(request, NotActive, Some(w), true);
    hide OnSubmit;
    assert [e1, e2] == [] + [e1] + [e2];
    FollowNothing(d1, digest);
    FollowSnoc(d1, digest, [], e1);
    FollowSnoc(d1, digest, [] + [e1], e2);
  }
}
