/** Claims over the interleaved file store: what callers of the vault get when each storage call is a run of the
    file protocol, with every codec, both locks and every crash in between. */
module FileClaims {
  import opened Core
  import opened Uuid
  import opened Calendar
  import opened Backend
  import opened Claims
  import opened Aead
  import opened FileProtocol
  import opened FileLinearizability
  import V = ClaimProtocol

  /** Event `q` makes call `t`, for `op`. */
  predicate AskedAt(events: seq<Event>, q: nat, t: TaskId, op: Op) {
    q < |events| && events[q].Invoke? && events[q].task == t && events[q].op == op
  }

  /** Call `t` has answered `reply`. */
  predicate Replied(s: State, t: TaskId, reply: Reply) {
    t in s.tasks && s.tasks[t].phase.Finished? && s.tasks[t].phase.response == Answered(reply)
  }

  lemma InvokeAddsIt(s: State, e: Event)
    requires Next(s, e).Some? && e.Invoke?
    ensures e.task !in s.tasks && e.task in Next(s, e).value.tasks
  {
  }

  /** The runs up to, through and past event `q`. */
  lemma SplitAt(s0: State, events: seq<Event>, q: nat)
    requires Run(s0, events).Some? && q < |events|
    ensures Run(s0, events[..q]).Some? && Next(Run(s0, events[..q]).value, events[q]).Some?
    ensures Run(s0, events[..q + 1]) == Next(Run(s0, events[..q]).value, events[q])
    ensures Later(Run(s0, events[..q + 1]).value, Run(s0, events).value)
  {
    hide Next;
    assert events[..q + 1] + events[q + 1..] == events;
    RunConcat(s0, events[..q + 1], events[q + 1..]);
    assert events[..q + 1][..q] == events[..q];
    RunIsLater(Run(s0, events[..q + 1]).value, events[q + 1..]);
    hide Later;
  }

  lemma MadeEarlier(s0: State, events: seq<Event>, i: nat, q: nat)
    requires Run(s0, events).Some? && i < q < |events| && events[i].Invoke? && events[q].Invoke?
    ensures events[i].task != events[q].task
  {
    SplitAt(s0, events, q);
    assert events[..q][..i] == events[..i] && events[..q][..i + 1] == events[..i + 1] && events[..q][i] == events[i];
    SplitAt(s0, events[..q], i);
    InvokeAddsIt(Run(s0, events[..i]).value, events[i]);
    InvokeAddsIt(Run(s0, events[..q]).value, events[q]);
  }

  /** No call is made twice. */
  lemma MadeOnce(s0: State, events: seq<Event>, i: nat, q: nat)
    requires Run(s0, events).Some? && i < |events| && q < |events|
    requires events[i].Invoke? && events[q].Invoke? && events[i].task == events[q].task
    ensures i == q
  {
    hide Run;
    if i < q {
      MadeEarlier(s0, events, i, q);
    } else if q < i {
      MadeEarlier(s0, events, q, i);
    }
  }

  /** What was asked for at `q` and answered is what the abstract store does at the call's place in the log. */
  lemma AnswerAt(clock: Instant, events: seq<Event>, q: nat, t: TaskId, op: Op, reply: Reply) returns (at: nat)
    requires Run(Start(map[], clock), events).Some? && AskedAt(events, q, t, op) && !op.DeleteExpired?
    requires Replied(Run(Start(map[], clock), events).value, t, reply)
    ensures var s := Run(Start(map[], clock), events).value;
            && s.tasks[t].committedAt == Some(at) && at < |s.log| && s.log[at].task == t && s.log[at].op == op
            && reply == Answer(AfterAll(map[], Ops(s.log[..at])), op)
  {
    hide Run, Answer, AfterAll;
    var i := AnswersAreAbstract(map[], clock, events, t);
    MadeOnce(Start(map[], clock), events, i, q);
    at := Run(Start(map[], clock), events).value.tasks[t].committedAt.value;
  }

  // ── Right plaintext ───────────────────────────────────────────────────────

  /** A record in the store was put there by an insert. */
  lemma {:induction false} HeldWasInserted(ops: seq<Op>, id: RecordId) returns (j: nat)
    requires id in AfterAll(map[], ops)
    ensures j < |ops| && ops[j] == Insert(id, AfterAll(map[], ops)[id])
  {
    var (init, op) := (ops[..|ops| - 1], ops[|ops| - 1]);
    if op.Insert? && op.id == id {
      j := |init|;
    } else {
      j := HeldWasInserted(init, id);
    }
  }

  /** `rec` is what the store call `r` inserts under `id`. */
  predicate Builds(r: V.Request, id: RecordId, rec: StoredRecord) {
    r.StoreProof? && r.id == id && rec.nonce == r.nonce && rec.ciphertext == Seal(r.key, r.nonce, r.proof)
  }

  /** Only the vault's store calls insert. */
  predicate InsertsAre(events: seq<Event>, stores: set<V.Request>) {
    forall i :: 0 <= i < |events| && events[i].Invoke? && events[i].op.Insert? ==>
      exists r :: r in stores && Builds(r, events[i].op.id, events[i].op.rec)
  }

  /** A record some fetch returned was built by a store call. */
  lemma FoundWasStored(clock: Instant, events: seq<Event>, stores: set<V.Request>, q: nat, t: TaskId, id: RecordId,
                       rec: StoredRecord)
    returns (r: V.Request)
    requires Run(Start(map[], clock), events).Some? && InsertsAre(events, stores)
    requires AskedAt(events, q, t, Fetch(id)) && Replied(Run(Start(map[], clock), events).value, t, Found(rec))
    ensures r in stores && Builds(r, id, rec)
  {
    var at := AnswerAt(clock, events, q, t, Fetch(id), Found(rec));
    var s := Run(Start(map[], clock), events).value;
    var j := HeldWasInserted(Ops(s.log[..at]), id);
    hide Run, AfterAll, Builds;
    assert s.log[j].op == Insert(id, rec);
    var i := CommitsWereAskedFor(map[], clock, events, j);
    assert events[i].op == Insert(id, rec);
    r :| r in stores && Builds(r, id, rec);
  }

  /** End to end: whatever was interleaved, failed, was cancelled or died, a record fetched for a token from the
      file and opened with that token's key gives the proof of a store call, and the token is that call's. */
  lemma RightPlaintextFromTheFile(clock: Instant, events: seq<Event>, stores: set<V.Request>, q: nat, t: TaskId,
                                  token: string, rec: StoredRecord, plaintext: bytes)
    returns (r: V.Request)
    requires Run(Start(map[], clock), events).Some? && InsertsAre(events, stores) && ParseToken(token).Some?
    requires AskedAt(events, q, t, Fetch(ParseToken(token).value.id))
    requires Replied(Run(Start(map[], clock), events).value, t, Found(rec))
    requires V.Unseal(ParseToken(token).value, rec) == Some(plaintext)
    ensures r in stores && r.StoreProof? && token == Token(Claim(r.id, r.key)) && plaintext == r.proof
  {
    var claim := ParseToken(token).value;
    r := FoundWasStored(clock, events, stores, q, t, claim.id, rec);
    OpensOnlyWithItsKey(r.key, r.nonce, r.proof, claim.key);
    ParsedTokensAreTokens(token);
  }

  // ── Single use ────────────────────────────────────────────────────────────

  /** `id` is in the store before entry `i` of the log. */
  predicate Present(log: seq<Commit>, id: RecordId, i: nat)
    requires i <= |log|
  {
    id in AfterAll(map[], Ops(log[..i]))
  }

  predicate InsertsAt(log: seq<Commit>, id: RecordId, j: nat) {
    j < |log| && log[j].op.Insert? && log[j].op.id == id
  }

  lemma PresentStep(log: seq<Commit>, id: RecordId, i: nat)
    requires i < |log|
    ensures Present(log, id, i + 1) <==> id in After(AfterAll(map[], Ops(log[..i])), log[i].op)
  {
    hide After;
    assert log[..i + 1] == log[..i] + [log[i]];
    Appended(map[], log[..i], log[i]);
  }

  /** Without another insert, what is gone stays gone. */
  lemma {:induction false} GoneStaysGone(log: seq<Commit>, id: RecordId, i: nat, k: nat)
    requires i <= k <= |log| && !Present(log, id, i)
    requires forall j :: i <= j < k ==> !InsertsAt(log, id, j)
    ensures !Present(log, id, k)
  {
    hide Present;
    if i < k {
      GoneStaysGone(log, id, i, k - 1);
      StillGone(log, id, k - 1);
    }
  }

  lemma StillGone(log: seq<Commit>, id: RecordId, i: nat)
    requires i < |log| && !Present(log, id, i) && !InsertsAt(log, id, i)
    ensures !Present(log, id, i + 1)
  {
    hide AfterAll;
    PresentStep(log, id, i);
  }

  /** Between a point where it was there and one where it was not lies the entry that removed it. */
  lemma {:induction false} RemovingEntry(log: seq<Commit>, id: RecordId, i: nat, k: nat) returns (r: nat)
    requires i < k <= |log| && Present(log, id, i) && !Present(log, id, k)
    ensures i <= r < k && Present(log, id, r) && !Present(log, id, r + 1)
  {
    hide Present;
    if Present(log, id, k - 1) {
      r := k - 1;
    } else {
      r := RemovingEntry(log, id, i, k - 1);
    }
  }

  /** Before an insert it is not there. */
  lemma PresentAfterInsert(log: seq<Commit>, id: RecordId, i: nat) returns (j: nat)
    requires i <= |log| && Present(log, id, i)
    ensures j < i && InsertsAt(log, id, j)
  {
    j := HeldWasInserted(Ops(log[..i]), id);
  }

  /** A claim of `id` on the file store: a fetch, asked for at `p`, that found the record, and a delete, asked for
      at `q` once the fetch had returned, that answered. */
  datatype FileClaim = FileClaim(p: nat, fetch: TaskId, rec: StoredRecord, q: nat, drop: TaskId)

  /** Call `t` had returned when event `q` happened. */
  predicate ReturnedBy(clock: Instant, events: seq<Event>, q: nat, t: TaskId) {
    && q <= |events| && Run(Start(map[], clock), events[..q]).Some?
    && var s := Run(Start(map[], clock), events[..q]).value; t in s.tasks && s.tasks[t].phase.Finished?
  }

  predicate Claimed(clock: Instant, events: seq<Event>, id: RecordId, c: FileClaim)
    requires Run(Start(map[], clock), events).Some?
  {
    var s := Run(Start(map[], clock), events).value;
    && AskedAt(events, c.p, c.fetch, Fetch(id)) && Replied(s, c.fetch, Found(c.rec))
    && AskedAt(events, c.q, c.drop, Delete(id)) && (Replied(s, c.drop, Deleted(true)) || Replied(s, c.drop, Deleted(false)))
    && ReturnedBy(clock, events, c.q, c.fetch)
  }

  /** Record ids are drawn afresh: no two calls insert under one. */
  predicate InsertedOnce(events: seq<Event>, id: RecordId) {
    forall i, j :: 0 <= i < |events| && 0 <= j < |events| && InvokesInsert(events[i], id) && InvokesInsert(events[j], id)
                   ==> i == j
  }

  predicate InvokesInsert(e: Event, id: RecordId) {
    e.Invoke? && e.op.Insert? && e.op.id == id
  }

  lemma OneInsertInTheLog(clock: Instant, events: seq<Event>, id: RecordId, j: nat, k: nat)
    requires Run(Start(map[], clock), events).Some? && InsertedOnce(events, id)
    requires var log := Run(Start(map[], clock), events).value.log; InsertsAt(log, id, j) && InsertsAt(log, id, k)
    ensures j == k
  {
    hide Run, Fulfils;
    var i := CommitsWereAskedFor(map[], clock, events, j);
    var l := CommitsWereAskedFor(map[], clock, events, k);
    FulfilledInsert(clock, events, i, j);
    FulfilledInsert(clock, events, l, k);
  }

  lemma FulfilledInsert(clock: Instant, events: seq<Event>, i: nat, j: nat)
    requires Run(Start(map[], clock), events).Some? && i < |events| && events[i].Invoke?
    requires Run(Start(map[], clock), events[..i]).Some? && j < |Run(Start(map[], clock), events).value.log|
    requires var (s, made) := (Run(Start(map[], clock), events).value, Run(Start(map[], clock), events[..i]).value.clock);
             s.log[j].op.Insert? && Fulfils(s.log[j].op, events[i].op, made, s.clock)
    ensures InvokesInsert(events[i], Run(Start(map[], clock), events).value.log[j].op.id)
  {
    hide Run;
  }

  lemma NotYetMade(clock: Instant, events: seq<Event>, q: nat)
    requires Run(Start(map[], clock), events).Some? && q < |events| && events[q].Invoke?
    ensures Run(Start(map[], clock), events[..q]).Some?
    ensures events[q].task !in Run(Start(map[], clock), events[..q]).value.tasks
  {
    hide Run, Next, Later;
    SplitAt(Start(map[], clock), events, q);
    InvokeAddsIt(Run(Start(map[], clock), events[..q]).value, events[q]);
  }

  /** A call that had returned when another was asked for took effect first. */
  lemma InOrder(clock: Instant, events: seq<Event>, q: nat, t: TaskId, u: TaskId)
    requires Run(Start(map[], clock), events).Some? && ReturnedBy(clock, events, q, t)
    requires q < |events| && events[q].Invoke? && events[q].task == u
    requires var s := Run(Start(map[], clock), events).value;
             t in s.tasks && s.tasks[t].committedAt.Some? && u in s.tasks && s.tasks[u].committedAt.Some?
    ensures var s := Run(Start(map[], clock), events).value;
            s.tasks[t].committedAt.value < s.tasks[u].committedAt.value
  {
    hide Run;
    NotYetMade(clock, events, q);
    hide Start;
    Joined(events, q);
    RealTimeOrder(map[], clock, events[..q], events[q..], t, u);
  }

  lemma Joined(events: seq<Event>, q: nat)
    requires q <= |events|
    ensures events[..q] + events[q..] == events
  {
  }

  /** Where a claim's two halves are in the log: the record is there for the fetch and gone after the delete. */
  lemma ClaimInTheLog(clock: Instant, events: seq<Event>, id: RecordId, c: FileClaim) returns (a: nat, b: nat)
    requires Run(Start(map[], clock), events).Some? && Claimed(clock, events, id, c)
    ensures var s := Run(Start(map[], clock), events).value;
            && c.fetch in s.tasks && c.drop in s.tasks
            && s.tasks[c.fetch].committedAt == Some(a) && s.tasks[c.drop].committedAt == Some(b)
            && a < b < |s.log| && s.log[a].op == Fetch(id)
            && Present(s.log, id, a) && !Present(s.log, id, b + 1)
  {
    var s := Run(Start(map[], clock), events).value;
    hide Run, AfterAll;
    a := AnswerAt(clock, events, c.p, c.fetch, Fetch(id), Found(c.rec));
    b := AnswerAt(clock, events, c.q, c.drop, Delete(id), s.tasks[c.drop].phase.response.reply);
    InOrder(clock, events, c.q, c.fetch, c.drop);
    PresentStep(s.log, id, b);
  }

  /** One instant for the claims of `id` whose halves are at `a` and `b`, given any of them. */
  lemma SameInstant(log: seq<Commit>, id: RecordId, r: nat, a: nat, b: nat)
    requires forall j, k :: InsertsAt(log, id, j) && InsertsAt(log, id, k) ==> j == k
    requires r < |log| && Present(log, id, r) && !Present(log, id, r + 1)
    requires a < b < |log| && log[a].op == Fetch(id) && Present(log, id, a) && !Present(log, id, b + 1)
    ensures a < r <= b
  {
    var j := PresentAfterInsert(log, id, a);
    var k := PresentAfterInsert(log, id, r);
    PresentStep(log, id, a);
    hide Present, AfterAll;
    if r < a {
      GoneStaysGone(log, id, r + 1, a);
    }
    if b < r {
      GoneStaysGone(log, id, b + 1, r);
    }
  }

  /** Single use on the file itself: all claims of a record share an instant, whatever was interleaved. */
  lemma ClaimsShareAnInstant(clock: Instant, events: seq<Event>, id: RecordId) returns (instant: nat)
    requires Run(Start(map[], clock), events).Some? && InsertedOnce(events, id)
    ensures var s := Run(Start(map[], clock), events).value;
            forall c :: Claimed(clock, events, id, c) ==>
              && c.fetch in s.tasks && s.tasks[c.fetch].committedAt.Some?
              && c.drop in s.tasks && s.tasks[c.drop].committedAt.Some?
              && s.tasks[c.fetch].committedAt.value < instant <= s.tasks[c.drop].committedAt.value
  {
    hide Run, Claimed, Present, InsertedOnce;
    var s := Run(Start(map[], clock), events).value;
    instant := 0;
    if some :| Claimed(clock, events, id, some) {
      var a, b := ClaimInTheLog(clock, events, id, some);
      instant := RemovingEntry(s.log, id, a, b + 1);
      forall j, k | InsertsAt(s.log, id, j) && InsertsAt(s.log, id, k) ensures j == k {
        OneInsertInTheLog(clock, events, id, j, k);
      }
      forall c | Claimed(clock, events, id, c)
        ensures && c.fetch in s.tasks && s.tasks[c.fetch].committedAt.Some?
                && c.drop in s.tasks && s.tasks[c.drop].committedAt.Some?
                && s.tasks[c.fetch].committedAt.value < instant <= s.tasks[c.drop].committedAt.value
      {
        var a, b := ClaimInTheLog(clock, events, id, c);
        SameInstant(s.log, id, instant, a, b);
      }
    }
  }

  /** ... so of two claims, one of which had returned before the other asked, at most one goes through. */
  lemma SingleUseOfTheFile(clock: Instant, events: seq<Event>, id: RecordId, c: FileClaim, d: FileClaim)
    requires Run(Start(map[], clock), events).Some? && InsertedOnce(events, id)
    requires ReturnedBy(clock, events, d.p, c.drop)
    ensures !(Claimed(clock, events, id, c) && Claimed(clock, events, id, d))
  {
    hide Run, Claimed, Present, InsertedOnce, ReturnedBy;
    if Claimed(clock, events, id, c) && Claimed(clock, events, id, d) {
      var instant := ClaimsShareAnInstant(clock, events, id);
      ClaimAsks(clock, events, id, d);
      InOrder(clock, events, d.p, c.drop, d.fetch);
    }
  }

  lemma ClaimAsks(clock: Instant, events: seq<Event>, id: RecordId, c: FileClaim)
    requires Run(Start(map[], clock), events).Some? && Claimed(clock, events, id, c)
    ensures c.p < |events| && events[c.p].Invoke? && events[c.p].task == c.fetch
  {
    hide Run;
  }
}
