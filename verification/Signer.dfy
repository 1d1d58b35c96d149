/**
 One signer as a state machine over its handlers: signer/gossip/node.go, rounds.go and
 snowballnetwork.go.

 `Signer` holds what the handlers share. An event is one handler run to its end, one
 eviction from an LRU cache, or one locked step of a background flush; `Next` says
 what it does. Polling is abstracted to arbitrary answers.
 */
module SignerModel {
  import opened Wire
  import opened Keys
  import opened VoteModel
  import opened MempoolModel
  import opened History
  import S = SnowballModel
  import G = StateModel

  const DEFAULT_ALPHA: real := 0.666
  const DEFAULT_BETA: int := 10

  /** A round object after its commit. Its background process still works on `state`. */
  datatype Completed = Completed(checkpoint: Checkpoint, state: G.State, published: bool)

  /** What a cache entry refers to: the round object itself, or one rebuilt from storage. */
  datatype Entry = Live | Restored

  datatype Signer = Signer(
    height: nat,
    snowball: S.State,
    started: bool,
    mempool: Pool,
    inflight: map<string, AddBlockRequest>,
    rounds: map<nat, Completed>,
    cache: map<nat, Entry>,
    dataStore: map<nat, Round>,
    lastCompleted: Option<nat>,
    store: map<Cid, AddBlockRequest>,
    republish: map<nat, Round>,
    signed: set<Round>,
    history: seq<Decision>)

  function NewRoundSnowball(): S.State {
    S.NewSnowball(DEFAULT_ALPHA, DEFAULT_BETA)
  }

  function Init(): Signer {
    Signer(0, NewRoundSnowball(), false, map[], map[], map[], map[], map[], None, map[], map[], {}, [])
  }

  // ---------------------------------------------------------------- rounds.go

  /** A completed round as its readers see it. */
  datatype RoundView = RoundView(height: nat, checkpoint: Checkpoint, state: G.State)

  /** restoreRound */
  function Restore(r: Round): RoundView {
    RoundView(r.height, r.checkpoint, G.State(r.state, map[]))
  }

  /** roundHolder.Get for a height other than the current one. */
  function GetRound(s: Signer, h: nat): Option<RoundView> {
    if h in s.cache && s.cache[h] == Live && h in s.rounds then
      Some(RoundView(h, s.rounds[h].checkpoint, s.rounds[h].state))
    else if h in s.dataStore then Some(Restore(s.dataStore[h]))
    else None
  }

  /** The cache entry a successful restore leaves behind. */
  function Touch(s: Signer, h: nat): Signer {
    if h != s.height && h !in s.cache && h in s.dataStore then s.(cache := s.cache[h := Restored]) else s
  }

  /** Reading the round before the current one, as every handler starts by doing. */
  function ReadPrevious(s: Signer): Signer {
    if s.height == 0 then s else Touch(s, s.height - 1)
  }

  // ---------------------------------------------------------------- add-block requests

  function GetCurrent(s: Signer, objectId: string): Result<Option<AddBlockRequest>, string> {
    if s.height == 0 then Ok(None)
    else
      match GetRound(s, s.height - 1)
      case None => Err("we don't have the previous round")
      case Some(locked) => G.Answer(locked.state, s.store, objectId)
  }

  function StoreAbr(address: AddBlockRequest -> Cid, s: Signer, abr: AddBlockRequest): Signer {
    s.(store := s.store[address(abr) := abr], mempool := s.mempool[address(abr) := abr])
  }

  function StoreAsInFlight(s: Signer, abr: AddBlockRequest): Signer {
    s.(inflight := s.inflight[KeyOf(abr) := abr])
  }

  /** handleAddBlockRequest once the current request is known. */
  function Judge(address: AddBlockRequest -> Cid, s: Signer, current: Option<AddBlockRequest>,
                 abr: AddBlockRequest): Signer {
    match current
    case None =>
      if abr.height == 0 then StoreAbr(address, s, abr) else StoreAsInFlight(s, abr)
    case Some(cur) =>
      if cur.height > abr.height then s
      else if Add64(cur.height, 1) == abr.height then
        if cur.newTip == abr.previousTip then StoreAbr(address, s, abr) else s
      else if abr.height > Add64(cur.height, 1) then StoreAsInFlight(s, abr)
      else s
  }

  function Arrive(address: AddBlockRequest -> Cid, s: Signer, abr: AddBlockRequest): Signer {
    match GetCurrent(s, abr.objectId)
    case Err(_) => ReadPrevious(s)
    case Ok(current) => Judge(address, ReadPrevious(s), current, abr)
  }

  // ---------------------------------------------------------------- voting

  /** Snowballer.Start: propose the preferred requests, listed in any order. */
  function Start(s: Signer, preferred: seq<Cid>): Signer {
    s.(started := true,
       snowball := if preferred == [] then s.snowball
                   else S.Prefer(s.snowball, Vote(Some(Checkpoint(s.height, preferred)), 0.0)))
  }

  /** The vote an answer counts as: empty unless every request is known and none conflict. */
  ghost function Filter(pool: Pool, answer: Option<Checkpoint>): Vote {
    if answer.Some? && answer.value.abrs != [] && Admissible(pool, answer.value.abrs) then Vote(answer, 0.0)
    else Vote(None, 0.0)
  }

  ghost function FilterAll(pool: Pool, answers: seq<Option<Checkpoint>>): seq<Vote> {
    seq(|answers|, i requires 0 <= i < |answers| => Filter(pool, answers[i]))
  }

  // ---------------------------------------------------------------- commit

  /** Take the request queued behind `abr` off the queue; store it if it builds on `abr`. */
  function Release(address: AddBlockRequest -> Cid, s: Signer, abr: AddBlockRequest): Signer {
    var key := Key(abr.objectId, Add64(abr.height, 1));
    if key !in s.inflight then s
    else
      var next := s.inflight[key];
      (if next.previousTip == abr.newTip then StoreAbr(address, s, next) else s).(inflight := s.inflight - {key})
  }

  /** The loop over the decided requests. */
  function Promote(address: AddBlockRequest -> Cid, s: Signer, abrs: seq<AddBlockRequest>): Signer {
    if abrs == [] then s else Release(address, Promote(address, s, abrs[..|abrs| - 1]), abrs[|abrs| - 1])
  }

  function Lookup(pool: Pool, ids: seq<Cid>): seq<AddBlockRequest>
    requires forall i :: 0 <= i < |ids| ==> ids[i] in pool
  {
    seq(|ids|, i requires 0 <= i < |ids| => pool[ids[i]])
  }

  function Wrapped(address: AddBlockRequest -> Cid, abrs: seq<AddBlockRequest>): seq<AddBlockWrapper> {
    seq(|abrs|, i requires 0 <= i < |abrs| => AddBlockWrapper(abrs[i], address(abrs[i])))
  }

  ghost function BaseState(s: Signer): G.State
    requires s.height > 0 ==> GetRound(s, s.height - 1).Some?
  {
    if s.height == 0 then G.EMPTY else GetRound(s, s.height - 1).value.state
  }

  /** The decided requests leave the mempool, the round is completed, the next one begins. */
  ghost function Lock(s: Signer, cp: Checkpoint, abrs: seq<AddBlockRequest>, state: G.State): Signer {
    s.(mempool := Remaining(s.mempool, cp.abrs),
       rounds := s.rounds[s.height := Completed(cp, state, false)],
       cache := s.cache[s.height := Live],
       height := s.height + 1,
       snowball := NewRoundSnowball(),
       started := false,
       history := s.history + [Decision(cp, abrs)])
  }

  /** handleSnowballerDone, the previous round read, for a decided checkpoint whose requests are all in the mempool. */
  ghost function Commit(address: AddBlockRequest -> Cid, s: Signer, cp: Checkpoint): Signer
    requires s.height > 0 ==> GetRound(s, s.height - 1).Some?
    requires forall i :: 0 <= i < |cp.abrs| ==> cp.abrs[i] in s.mempool
  {
    var abrs := Lookup(s.mempool, cp.abrs);
    Lock(Promote(address, s, abrs), cp, abrs, G.WithInflights(BaseState(s), Wrapped(address, abrs)))
  }

  // ---------------------------------------------------------------- publishing

  /** publishCompletedRound, once the round's background flush is over. */
  function Publish(s: Signer, h: nat): Signer
    requires h in s.rounds
  {
    var r := Round(h, s.rounds[h].state.hamt, s.rounds[h].checkpoint);
    s.(dataStore := s.dataStore[h := r],
       lastCompleted := Some(h),
       signed := s.signed + {r},
       republish := s.republish[h := r],
       rounds := s.rounds[h := s.rounds[h].(published := true)])
  }

  /** maybeRepublish on an idle signer. */
  predicate CanRepublish(s: Signer, h: nat) {
    && !s.started && s.height == h + 1
    && h in s.cache && s.cache[h] == Live && h in s.rounds && s.rounds[h].published
  }

  /**
   initRoundHolder: a restarted signer resumes after the round recorded last, and has lost
   everything that was only in memory, rounds committed since included.
   */
  function Resume(s: Signer): Signer {
    var height := if s.lastCompleted.None? then 0 else s.lastCompleted.value + 1;
    s.(height := height, history := if height <= |s.history| then s.history[..height] else s.history,
       snowball := NewRoundSnowball(), started := false, mempool := map[], inflight := map[],
       rounds := map[], cache := map[], republish := map[])
  }

  /** No round beyond the one recorded last was signed. */
  ghost predicate CanResume(s: Signer) {
    forall r :: r in s.signed ==> s.lastCompleted.Some? && r.height <= s.lastCompleted.value
  }

  // ---------------------------------------------------------------- steps

  datatype Event =
    | ArriveEvent(abr: AddBlockRequest)
    | EvictInflight(key: string)
    | StartEvent(preferred: seq<Cid>)
    | Poll(answers: seq<Option<Checkpoint>>, votes: seq<Vote>)
    | CommitEvent(cp: Checkpoint)
    | Flush(round: nat, objectId: string)
    | PublishEvent(round: nat)
    | Republish(round: nat)
    | LookupRound(round: nat)
    | EvictRound(round: nat)
    | EvictRepublish(round: nat)
    | RestartEvent

  ghost predicate Next(address: AddBlockRequest -> Cid, s: Signer, e: Event, s': Signer) {
    match e
    case ArriveEvent(abr) =>
      IsDid(abr.objectId) && s' == Arrive(address, s, abr)
    case EvictInflight(key) =>
      s' == s.(inflight := s.inflight - {key})
    case StartEvent(preferred) =>
      && !s.started
      && Enumerates(preferred, PreferredSet(s.mempool))
      && s' == Start(s, preferred)
    case Poll(answers, votes) =>
      && s.started && !s.snowball.decided
      && Tallied(FilterAll(s.mempool, answers), votes)
      && s' == s.(snowball := S.Step(s.snowball, votes))
    case CommitEvent(cp) =>
      && s.snowball.decided && s.snowball.preferred.Some? && s.snowball.preferred.value.checkpoint == Some(cp)
      && (s.height > 0 ==> GetRound(ReadPrevious(s), s.height - 1).Some?)
      && (forall i :: 0 <= i < |cp.abrs| ==> cp.abrs[i] in s.mempool)
      && s' == Commit(address, ReadPrevious(s), cp)
    case Flush(h, objectId) =>
      && h in s.rounds
      && s' == s.(rounds := s.rounds[h := s.rounds[h].(state := G.FlushOne(s.rounds[h].state, objectId))])
    case PublishEvent(h) =>
      && h in s.rounds && s.rounds[h].state.inflight == map[]
      && s' == Publish(s, h)
    case Republish(h) =>
      && CanRepublish(s, h)
      && s' == if h in s.republish then s.(signed := s.signed + {s.republish[h]}) else Publish(s, h)
    case LookupRound(h) =>
      s' == Touch(s, h)
    case EvictRound(h) =>
      s' == s.(cache := s.cache - {h})
    case EvictRepublish(h) =>
      s' == s.(republish := s.republish - {h})
    case RestartEvent =>
      CanResume(s) && s' == Resume(s)
  }

  /** `states` is a run of a fresh signer under `events`. */
  ghost predicate IsRun(address: AddBlockRequest -> Cid, states: seq<Signer>, events: seq<Event>) {
    && |states| == |events| + 1
    && states[0] == Init()
    && forall i :: 0 <= i < |events| ==> Next(address, states[i], events[i], states[i + 1])
  }

  ghost predicate Reachable(address: AddBlockRequest -> Cid, s: Signer) {
    exists states, events :: IsRun(address, states, events) && states[|states| - 1] == s
  }
}
