/**
 The Drive as a step system: servers append to the journal, one indexer folds it and publishes
 generations, a follower loads them, readers overlay the tail of the journal on a cache. Between two
 steps anything else may happen, the indexer may fail or crash at every one of its steps, and every
 write that the indexer does not see acknowledged may or may not have been applied.
 */
module Machine {
  import opened Wrappers
  import opened Journal
  import opened States
  import opened FoldFacts
  import History

  /** Where readers run: inside the indexer's process, or on a follower. */
  datatype Source = Local | Remote

  /** A published generation; generation g is the g-th one, counted from 1. */
  datatype Pointer = Pointer(lastKey: Key, opstamp: nat, change: History.Change)

  /** The state file in the index directory. */
  datatype Saved = Saved(lastKey: Key, generation: nat)

  /** The end of the checkpoint chain as the indexer knows it. */
  datatype Head = Head(n: nat, lastKey: Key)

  /** How a write of a checkpoint ends. */
  datatype Outcome = Acknowledged | AppliedButFailed | Failed

  datatype Pc =
    | Down
    | Fetched                                              // published files downloaded
    | Adopted                                              // and the state saved
    | Idle
    | Listed(hi: Key, entries: seq<Key>, todo: Files)      // a batch folded in memory
    | Writing(hi: Key, entries: seq<Key>, left: Files)     // committed; cache and meta writes
    | Moved(from: Key, entries: seq<Key>)                  // last journal key set
    | Chaining(from: Key, entries: seq<Key>)               // state saved
    | Publishing
    | Published                                            // pointer put and acknowledged
    | Wiped                                                // rebuilding: the index is empty
    | Rekeyed                                              // rebuilding: committed

  datatype Process = Process(
    pc: Pc, cache: Files, lastKey: Key, generation: nat,
    unpublished: bool, changed: set<FileId>, full: bool, head: Option<Head>)

  const STOPPED := Process(Down, map[], 0, 0, false, {}, false, None)

  datatype Phase =
    | Resting
    | Reading(target: nat, todo: set<FileId>)
    | Loading(target: nat, todo: set<FileId>, loaded: Files)

  datatype Follower = Follower(served: nat, cache: Files, phase: Phase)

  /** A listed journal tail; `at` is the instant of the listing. */
  datatype Tail = Tail(since: Key, states: Files, at: nat)

  datatype Reader = Asking(since: Key) | Looking(tail: Tail)

  datatype Sys = Sys(
    source: Source,
    maxOverlay: nat,
    log: Log,
    times: seq<Log>,            // the journal at every instant so far
    listed: Key,                // the newest key the indexer ever listed
    metas: Files,               // meta objects
    published: seq<Pointer>,    // every pointer put; the last one is stored
    chain: seq<seq<Key>>,       // the keys each checkpoint covers
    disk: Option<Saved>,
    opstamp: nat,               // of the local index
    ix: Process,
    follower: Follower,
    tail: Option<Tail>,         // the overlay cache of the server
    fence: nat,                 // the last instant it was invalidated
    readers: map<nat, Reader>)

  ghost predicate Init(s: Sys) {
    && s.log == map[] && s.times == [map[]] && s.listed == 0
    && s.metas == map[] && s.published == [] && s.chain == []
    && s.disk == None && s.ix == STOPPED
    && s.follower == Follower(0, map[], Resting)
    && s.tail == None && s.fence == 0 && s.readers == map[]
  }

  // ---------------------------------------------------------------- vocabulary

  function Last(published: seq<Pointer>): Pointer
    requires published != []
  {
    published[|published| - 1]
  }

  /** The journal key generation g ends at; generation 0 is no generation. */
  function EndOf(published: seq<Pointer>, g: nat): Key
    requires g <= |published|
  {
    if g == 0 then 0 else published[g - 1].lastKey
  }

  function Changes(published: seq<Pointer>): seq<History.Change> {
    if published == [] then []
    else Changes(published[..|published| - 1]) + [Last(published).change]
  }

  /** No commit or reset gets the opstamp of the stored pointer. */
  predicate Fresh(s: Sys, opstamp: nat) {
    s.published == [] || opstamp != Last(s.published).opstamp
  }

  function LastLeaf(chain: seq<seq<Key>>): Key {
    if chain == [] || chain[|chain| - 1] == [] then 0
    else
      var leaves := chain[|chain| - 1];
      leaves[|leaves| - 1]
  }

  function HeadOf(s: Sys): Head {
    match s.ix.head
    case Some(h) => h
    case None => Head(|s.chain|, LastLeaf(s.chain))
  }

  /** The part of an ordered key list after a key. */
  function Beyond(keys: seq<Key>, after: Key): seq<Key> {
    if keys == [] then []
    else if keys[0] > after then [keys[0]] + Beyond(keys[1..], after)
    else Beyond(keys[1..], after)
  }

  /** The events the next checkpoint covers: what the chain misses, then what was just folded. */
  function Batch(log: Log, head: Key, from: Key, entries: seq<Key>): seq<Key> {
    (if from > head then Sorted(Range(log.Keys, head, from)) else []) + Beyond(entries, head)
  }

  /** A copy of m with file f as the meta objects have it. */
  function Reread(m: Files, metas: Files, f: FileId): Files {
    if f in metas then m[f := metas[f]] else m - {f}
  }

  function Base(s: Sys): Key
    requires s.follower.served <= |s.published|
  {
    match s.source
    case Local => s.ix.lastKey
    case Remote => EndOf(s.published, s.follower.served)
  }

  function ReadCache(s: Sys): Files {
    match s.source
    case Local => s.ix.cache
    case Remote => s.follower.cache
  }

  /** The present instant. */
  function Now(s: Sys): nat {
    if s.times == [] then 0 else |s.times| - 1
  }

  /** Where a request can start: a server does not listen before its start is over. */
  predicate Serving(s: Sys) {
    match s.source
    case Local => s.ix.pc != Down && s.ix.pc != Fetched && s.ix.pc != Adopted
    case Remote => s.follower.phase == Resting
  }

  /** What reader r gets for file f: the overlay wins over the cache. */
  function Resolve(s: Sys, r: nat, f: FileId): Option<File>
    requires r in s.readers && s.readers[r].Looking?
  {
    Patched(s.readers[r].tail.states, ReadCache(s), f)
  }

  // ---------------------------------------------------------------- steps

  /** Steps of servers and their readers. */
  datatype ServerStep =
    | Append(key: Key, event: Event)
    | Invalidate
    | Ask(reader: nat)
    | Look(reader: nat)
    | LookCached(reader: nat)

  /** One run of the indexer, write by write. */
  datatype FoldStep =
    | List(max: nat, again: set<FileId>)
    | Commit(opstamp: nat)
    | CommitUnseen(opstamp: nat)     // committed, but the indexer saw an error
    | PutCache(file: FileId)
    | PutMeta(file: FileId)
    | SetLast
    | Skip
    | Save
    | Checkpoint(outcome: Outcome)
    | NoCheckpoint
    | Publish(acknowledged: bool)
    | NothingToPublish
    | SaveGeneration

  /** Failures, restarts and rebuilds of the indexer. */
  datatype RestartStep =
    | Fail
    | Crash
    | LoseDirectory(opstamp: nat)
    | Start(opstamp: nat)
    | SaveAdopted
    | LoadAdopted
    | Wipe(opstamp: nat)
    | Reload(file: FileId)
    | Rekey(opstamp: nat)
    | SaveRekeyed

  /** Steps of the follower. */
  datatype FollowStep =
    | FollowerStart
    | Refresh
    | ReadFile(file: FileId)
    | LoadFile(file: FileId)
    | Swap
    | Serve
    | FollowerFail

  datatype Step =
    | Server(server: ServerStep)
    | Fold(fold: FoldStep)
    | Restart(restart: RestartStep)
    | Follow(follow: FollowStep)

  /** The local index directory cannot be continued and there is a generation to take over. */
  predicate MustAdopt(s: Sys) {
    s.published != [] && (s.disk.None? || s.disk.value.generation != |s.published|)
  }

  ghost predicate CanServer(s: Sys, step: ServerStep) {
    match step
    case Append(key, _) => key > s.listed && key !in s.log
    case Invalidate => true
    case Ask(_) => Serving(s) && s.follower.served <= |s.published|
    case Look(r) =>
      && r in s.readers && s.readers[r].Asking?
      && |Page(s.log.Keys, s.readers[r].since, s.maxOverlay)| < s.maxOverlay
    case LookCached(r) =>
      r in s.readers && s.readers[r].Asking? && s.tail.Some? && s.tail.value.since == s.readers[r].since
  }

  ghost function DoServer(s: Sys, step: ServerStep): Sys
    requires CanServer(s, step)
  {
    match step
    case Append(key, event) =>
      var log := s.log[key := Stamped(key, event)];
      s.(log := log, times := s.times + [log])
    case Invalidate => s.(tail := None, fence := Now(s))
    case Ask(r) => s.(readers := s.readers[r := Asking(Base(s))])
    case Look(r) =>
      var since := s.readers[r].since;
      var tail := Tail(since, Overlay(s.log, since), Now(s));
      s.(tail := Some(tail), readers := s.readers[r := Looking(tail)])
    case LookCached(r) => s.(readers := s.readers[r := Looking(s.tail.value)])
  }

  ghost predicate CanFold(s: Sys, step: FoldStep) {
    var pc := s.ix.pc;
    match step
    case List(max, _) => pc.Idle? && max > 0
    case Commit(opstamp) => pc.Listed? && pc.todo != map[] && Fresh(s, opstamp)
    case CommitUnseen(opstamp) => pc.Listed? && pc.todo != map[] && Fresh(s, opstamp)
    case PutCache(f) => pc.Writing? && f in pc.left
    case PutMeta(f) => pc.Writing? && f in pc.left && Get(s.ix.cache, f) == Some(pc.left[f])
    case SetLast => (pc.Listed? && pc.todo == map[] && pc.entries != []) || (pc.Writing? && pc.left == map[])
    case Skip => pc.Listed? && pc.todo == map[] && pc.entries == []
    case Save => pc.Moved?
    case Checkpoint(_) => pc.Chaining?
    case NoCheckpoint => pc.Chaining?
    case Publish(_) => pc.Publishing? && s.ix.unpublished
    case NothingToPublish => pc.Publishing? && !s.ix.unpublished
    case SaveGeneration => pc.Published?
  }

  /** The checkpoint after `head` goes over one whose write the indexer did not see succeed. */
  function NextChain(chain: seq<seq<Key>>, head: Head, batch: seq<Key>, outcome: Outcome): seq<seq<Key>> {
    if batch == [] || outcome == Failed || |chain| < head.n then chain else chain[..head.n] + [batch]
  }

  function NextHead(head: Head, batch: seq<Key>, outcome: Outcome): Head {
    if batch == [] || outcome != Acknowledged then head else Head(head.n + 1, batch[|batch| - 1])
  }

  ghost function Chained(s: Sys, head: Head, batch: seq<Key>, outcome: Outcome): Sys {
    s.(chain := NextChain(s.chain, head, batch, outcome),
       ix := s.ix.(head := Some(NextHead(head, batch, outcome)),
                   pc := if batch == [] || outcome == Acknowledged then Publishing else Idle))
  }

  ghost function DoFold(s: Sys, step: FoldStep): Sys
    requires CanFold(s, step)
  {
    var ix := s.ix;
    match step
    case List(max, again) =>
      var entries := Page(s.log.Keys, ix.lastKey, max);
      var hi := End(entries, ix.lastKey);
      s.(listed := if hi > s.listed then hi else s.listed,
         ix := ix.(pc := Listed(hi, entries, Todo(s.log, ix.lastKey, hi, ix.cache, again))))
    case Commit(opstamp) =>
      s.(opstamp := opstamp,
         ix := ix.(pc := Writing(ix.pc.hi, ix.pc.entries, ix.pc.todo), unpublished := true,
                   changed := if ix.full then ix.changed else ix.changed + ix.pc.todo.Keys))
    case CommitUnseen(opstamp) => s.(opstamp := opstamp, ix := ix.(pc := Idle))
    case PutCache(f) => s.(ix := ix.(cache := ix.cache[f := ix.pc.left[f]]))
    case PutMeta(f) =>
      s.(metas := s.metas[f := ix.pc.left[f]],
         ix := ix.(pc := ix.pc.(left := ix.pc.left - {f})))
    case SetLast => s.(ix := ix.(pc := Moved(ix.lastKey, ix.pc.entries), lastKey := ix.pc.hi))
    case Skip => s.(ix := ix.(pc := Chaining(ix.lastKey, [])))
    case Save =>
      s.(disk := Some(Saved(ix.lastKey, ix.generation)),
         ix := ix.(pc := Chaining(ix.pc.from, ix.pc.entries), unpublished := ix.unpublished || ix.pc.entries != []))
    case Checkpoint(outcome) =>
      Chained(s, HeadOf(s), Batch(s.log, HeadOf(s).lastKey, ix.pc.from, ix.pc.entries), outcome)
    case NoCheckpoint => s.(ix := ix.(pc := Publishing))
    case Publish(acknowledged) =>
      var generation := |s.published| + 1;
      var published := s.published + [Pointer(ix.lastKey, s.opstamp, History.Change(generation, ix.full, ix.changed))];
      if acknowledged then
        s.(published := published,
           ix := ix.(pc := Published, generation := generation, unpublished := false, changed := {}, full := false))
      else s.(published := published, ix := ix.(pc := Idle))
    case NothingToPublish => s.(ix := ix.(pc := Idle))
    case SaveGeneration => s.(disk := Some(Saved(ix.lastKey, ix.generation)), ix := ix.(pc := Idle))
  }

  ghost predicate CanRestart(s: Sys, step: RestartStep) {
    var pc := s.ix.pc;
    match step
    case Fail => !pc.Down? && !pc.Fetched? && !pc.Adopted?
    case Crash => true
    case LoseDirectory(_) => pc.Down?
    case Start(_) => pc.Down?
    case SaveAdopted => pc.Fetched? && s.published != []
    case LoadAdopted => pc.Adopted?
    case Wipe(opstamp) => pc.Idle? && Fresh(s, opstamp)
    case Reload(f) => pc.Wiped? && f in s.metas
    case Rekey(opstamp) =>
      pc.Wiped? && Fresh(s, opstamp) && forall f :: f in s.metas ==> Get(s.ix.cache, f) == Some(s.metas[f])
    case SaveRekeyed => pc.Rekeyed?
  }

  ghost function DoRestart(s: Sys, step: RestartStep): Sys
    requires CanRestart(s, step)
  {
    var ix := s.ix;
    match step
    case Fail => s.(ix := ix.(pc := Idle))
    case Crash =>
      if s.source == Local then s.(ix := STOPPED, tail := None, readers := map[]) else s.(ix := STOPPED)
    case LoseDirectory(opstamp) => s.(disk := None, opstamp := opstamp)
    case Start(opstamp) =>
      if MustAdopt(s) then s.(opstamp := Last(s.published).opstamp, ix := STOPPED.(pc := Fetched))
      else if s.disk.None? then s.(opstamp := opstamp, ix := STOPPED.(pc := Wiped))
      else
        var full := s.published == [] || Last(s.published).opstamp != s.opstamp;
        s.(ix := STOPPED.(pc := Idle, cache := s.metas, lastKey := s.disk.value.lastKey,
                          generation := s.disk.value.generation, unpublished := full, full := full))
    case SaveAdopted =>
      var p := Last(s.published);
      s.(disk := Some(Saved(p.lastKey, |s.published|)),
         ix := STOPPED.(pc := Adopted, lastKey := p.lastKey, generation := |s.published|))
    case LoadAdopted => s.(ix := ix.(pc := Idle, cache := s.metas))
    case Wipe(opstamp) => s.(disk := None, opstamp := opstamp, ix := ix.(pc := Wiped))
    case Reload(f) => s.(ix := ix.(cache := ix.cache[f := s.metas[f]]))
    case Rekey(opstamp) =>
      s.(opstamp := opstamp,
         ix := ix.(pc := Rekeyed, lastKey := NewestEvent(s.metas), unpublished := true, full := true, changed := {}))
    case SaveRekeyed => s.(disk := Some(Saved(ix.lastKey, ix.generation)), ix := ix.(pc := Idle))
  }

  ghost predicate CanFollow(s: Sys, step: FollowStep) {
    match step
    case FollowerStart => true
    case Refresh => s.follower.phase.Resting? && s.published != [] && s.follower.served != |s.published|
    case ReadFile(f) => s.follower.phase.Reading? && f in s.follower.phase.todo
    case LoadFile(f) => s.follower.phase.Loading? && f in s.follower.phase.todo && f in s.metas
    case Swap => s.follower.phase.Loading? && s.follower.phase.todo == {}
    case Serve => s.follower.phase.Reading? && s.follower.phase.todo == {}
    case FollowerFail => true
  }

  ghost function DoFollow(s: Sys, step: FollowStep): Sys
    requires CanFollow(s, step)
  {
    var follower := s.follower;
    match step
    case FollowerStart =>
      var restarted := s.(follower := Follower(0, map[], Resting));
      if s.source == Remote then restarted.(tail := None, readers := map[]) else restarted
    case Refresh =>
      var target := |s.published|;
      var answer := if follower.served == 0 then History.Everything
                    else History.Answered(target, History.Of(Changes(s.published)), follower.served);
      s.(follower := follower.(phase := match answer
                                        case Files(ids) => Reading(target, ids)
                                        case _ => Loading(target, s.metas.Keys, map[])))
    case ReadFile(f) =>
      s.(follower := follower.(cache := Reread(follower.cache, s.metas, f),
        phase := Reading(follower.phase.target, follower.phase.todo - {f})))
    case LoadFile(f) =>
      var Loading(target, todo, loaded) := follower.phase;
      s.(follower := follower.(phase := Loading(target, todo - {f}, loaded[f := s.metas[f]])))
    case Swap => s.(follower := follower.(cache := follower.phase.loaded, phase := Reading(follower.phase.target, {})))
    case Serve => s.(follower := follower.(served := follower.phase.target, phase := Resting))
    case FollowerFail => s.(follower := follower.(phase := Resting))
  }

  ghost predicate Enabled(s: Sys, step: Step) {
    match step
    case Server(a) => CanServer(s, a)
    case Fold(a) => CanFold(s, a)
    case Restart(a) => CanRestart(s, a)
    case Follow(a) => CanFollow(s, a)
  }

  ghost function Apply(s: Sys, step: Step): Sys
    requires Enabled(s, step)
  {
    match step
    case Server(a) => DoServer(s, a)
    case Fold(a) => DoFold(s, a)
    case Restart(a) => DoRestart(s, a)
    case Follow(a) => DoFollow(s, a)
  }

  // ---------------------------------------------------------------- runs

  /** A careful operator starts a rebuild only over prefix-closed meta objects. */
  ghost predicate Careful(s: Sys, step: Step) {
    step.Restart? && step.restart.Rekey? ==> PrefixClosed(s.log, s.metas)
  }

  ghost predicate Runs(s: Sys, steps: seq<Step>, end: Sys)
    decreases |steps|
  {
    if steps == [] then end == s
    else Enabled(s, steps[0]) && Runs(Apply(s, steps[0]), steps[1..], end)
  }

  ghost predicate RunsCarefully(s: Sys, steps: seq<Step>, end: Sys)
    decreases |steps|
  {
    if steps == [] then end == s
    else Enabled(s, steps[0]) && Careful(s, steps[0]) && RunsCarefully(Apply(s, steps[0]), steps[1..], end)
  }
}
