/**
 The per-repository event queue (pkg/queue/queue.go) as a state machine. Each
 section the source runs under its mutex is one step; so is every other action
 another goroutine can observe. A run is any interleaving of steps.
 */
module EventQueue {
  import opened Effects
  import Sums

  /** The name a repository has in the queue map. */
  datatype Key = Key(prefix: string)

  function GetPrefix(owner: string, name: string): Key {
    Key(owner + "/" + name)
  }

  /** Different repositories have different queues, as owners contain no slash. */
  lemma PrefixInjective(owner1: string, name1: string, owner2: string, name2: string)
    requires '/' !in owner1 && '/' !in owner2
    ensures GetPrefix(owner1, name1) == GetPrefix(owner2, name2) <==> owner1 == owner2 && name1 == name2
  {
    var p1, p2 := owner1 + "/" + name1, owner2 + "/" + name2;
    if p1 == p2 {
      assert p1[|owner1|] == '/' && p2[|owner2|] == '/';
      assert forall i | 0 <= i < |owner1| :: p1[i] == owner1[i];
      assert forall i | 0 <= i < |owner2| :: p2[i] == owner2[i];
      assert |owner1| == |owner2|;
      assert owner1 == p1[..|owner1|] && owner2 == p2[..|owner2|];
      assert name1 == p1[|owner1| + 1..] && name2 == p2[|owner2| + 1..];
    }
  }

  /** An event together with the remote effects its handler will perform. Any
      handler that terminates performs some finite list of effects. */
  datatype Event = Event(number: nat, script: seq<Effect>)

  /** Where a worker goroutine stands in its loop. */
  datatype Place =
    | Selecting  // about to test the shutdown channel
    | Locking    // not shut down: about to take the mutex
    | Handling(event: Event, ticket: nat, done: nat)  // mutex released, `done` effects performed
    | Sleeping   // handler returned
    | Exiting    // returned, `wg.Done` still to run

  datatype Worker = Worker(key: Key, place: Place)

  /** How far GraceFullShutdown has come. */
  datatype Closer = Watching | Joining | Closing | Closed

  /** One remote effect, performed by a worker for the event it took as number `ticket`
      from the queue of `key`. */
  datatype Entry = Entry(key: Key, ticket: nat, worker: nat, effect: Effect)

  datatype State = State(
    queues: map<Key, seq<Event>>,
    wg: int,
    shutdown: bool,
    workers: map<nat, Worker>,
    spawned: nat,
    closer: Closer,
    // histories
    added: map<Key, seq<Event>>,
    started: map<Key, seq<Event>>,
    takers: map<Key, seq<nat>>,  // the worker that took each started event
    completed: map<Key, seq<Event>>,
    abandoned: set<Key>,  // keys whose worker left because of the shutdown
    log: seq<Entry>)

  /** A worker's next action is settled by its place, so a step only names the worker. */
  datatype Step = Add(key: Key, event: Event) | Work(worker: nat) | Observe | Join | Close

  const INIT := State(map[], 0, false, map[], 0, Watching, map[], map[], map[], map[], {}, [])

  function At<T>(h: map<Key, seq<T>>, k: Key): seq<T> {
    if k in h then h[k] else []
  }

  function Put<T>(h: map<Key, seq<T>>, k: Key, x: T): map<Key, seq<T>> {
    h[k := At(h, k) + [x]]
  }

  predicate Enabled(s: State, step: Step) {
    match step
    case Add(_, _) => true
    case Work(w) => w in s.workers
    case Observe => s.closer.Watching?
    case Join => s.closer.Joining? && s.wg == 0
    case Close => s.closer.Closing?
  }

  function Apply(s: State, step: Step): State
    requires Enabled(s, step)
  {
    match step
    case Add(k, e) => ApplyAdd(s, k, e)
    case Work(w) => ApplyWork(s, w)
    case Observe => if s.queues == map[] then s.(closer := Joining) else s
    case Join => s.(closer := Closing)
    case Close => s.(closer := Closed, shutdown := true)
  }

  /** AddEvent: a worker is spawned when the repository has no queue. */
  function ApplyAdd(s: State, k: Key, e: Event): State {
    var spawn := k !in s.queues;
    s.(queues := Put(s.queues, k, e),
       added := Put(s.added, k, e),
       wg := if spawn then s.wg + 1 else s.wg,
       workers := if spawn then s.workers[s.spawned := Worker(k, Selecting)] else s.workers,
       spawned := if spawn then s.spawned + 1 else s.spawned)
  }

  /** Under the mutex the worker finds an event and takes it. */
  predicate Takes(s: State, worker: Worker) {
    worker.place.Locking? && At(s.queues, worker.key) != []
  }

  /** Under the mutex the worker finds none, deletes the queue and returns. */
  predicate Deletes(s: State, worker: Worker) {
    worker.place.Locking? && At(s.queues, worker.key) == []
  }

  /** The worker finds the shutdown channel closed and returns. */
  predicate Quits(s: State, worker: Worker) {
    worker.place.Selecting? && s.shutdown
  }

  predicate Performs(worker: Worker) {
    worker.place.Handling? && worker.place.done < |worker.place.event.script|
  }

  /** The handler returns. */
  predicate Returns(worker: Worker) {
    worker.place.Handling? && worker.place.done >= |worker.place.event.script|
  }

  /** Where a worker goes next, given its repository's queue and how many of its
      events were taken before. */
  function NextPlace(place: Place, queue: seq<Event>, taken: nat, shutdown: bool): Place {
    match place
    case Selecting => if shutdown then Exiting else Locking
    case Locking => if queue != [] then Handling(queue[0], taken, 0) else Exiting
    case Handling(e, ticket, done) => if done < |e.script| then Handling(e, ticket, done + 1) else Sleeping
    case Sleeping => Selecting
    case Exiting => Exiting
  }

  function Moved(s: State, worker: Worker): Place {
    NextPlace(worker.place, At(s.queues, worker.key), |At(s.started, worker.key)|, s.shutdown)
  }

  /** ReceiveEvent: the next action of one worker goroutine. */
  function ApplyWork(s: State, w: nat): State
    requires w in s.workers
  {
    var worker := s.workers[w];
    var k, place := worker.key, worker.place;
    s.(workers := if place.Exiting? then s.workers - {w} else s.workers[w := Worker(k, Moved(s, worker))],
       wg := if place.Exiting? then s.wg - 1 else s.wg,
       queues := if Takes(s, worker) then s.queues[k := s.queues[k][1..]]
                 else if Deletes(s, worker) then s.queues - {k} else s.queues,
       started := if Takes(s, worker) then Put(s.started, k, s.queues[k][0]) else s.started,
       takers := if Takes(s, worker) then Put(s.takers, k, w) else s.takers,
       completed := if Returns(worker) then Put(s.completed, k, place.event) else s.completed,
       abandoned := if Quits(s, worker) then s.abandoned + {k} else s.abandoned,
       log := if Performs(worker)
              then s.log + [Entry(k, place.ticket, w, place.event.script[place.done])] else s.log)
  }

  // ---------- runs ----------

  /** Every step of the run is enabled when its turn comes. */
  ghost predicate IsRun(s: State, steps: seq<Step>)
    decreases |steps|
  {
    steps != [] ==> Enabled(s, steps[0]) && IsRun(Apply(s, steps[0]), steps[1..])
  }

  ghost function After(s: State, steps: seq<Step>): State
    requires IsRun(s, steps)
    decreases |steps|
  {
    if steps == [] then s else After(Apply(s, steps[0]), steps[1..])
  }

  // ---------- what the log must look like ----------

  /** The log restricted to one repository. */
  function Restrict(log: seq<Entry>, k: Key): seq<Entry> {
    if log == [] then []
    else
      var rest := Restrict(log[..|log| - 1], k);
      if log[|log| - 1].key == k then rest + [log[|log| - 1]] else rest
  }

  function Tagged(k: Key, ticket: nat, worker: nat, effects: seq<Effect>): seq<Entry> {
    seq(|effects|, i requires 0 <= i < |effects| => Entry(k, ticket, worker, effects[i]))
  }

  /** The log of a sequential run of `events`, one whole script after the other, each
      performed by one worker. */
  function Sequential(k: Key, events: seq<Event>, takers: seq<nat>): seq<Entry>
    requires |events| <= |takers|
  {
    if events == [] then []
    else
      var n := |events| - 1;
      Sequential(k, events[..n], takers) + Tagged(k, n, takers[n], events[n].script)
  }

  // ---------- the invariant ----------

  predicate Active(w: Worker) {
    !w.place.Exiting?
  }

  /** Some worker that has not left serves the key. */
  ghost predicate Served(workers: map<nat, Worker>, k: Key) {
    exists w | w in workers :: workers[w].key == k && Active(workers[w])
  }

  /** Each repository has at most one active worker; the repositories with a queue
      are those with an active worker and those a shutdown has abandoned. */
  ghost predicate TableOk(workers: map<nat, Worker>, keys: set<Key>, abandoned: set<Key>) {
    && (forall v, w | v in workers && w in workers && Active(workers[v]) && Active(workers[w]) ::
          workers[v].key == workers[w].key ==> v == w)
    && (forall w | w in workers && Active(workers[w]) :: workers[w].key in keys)
    && (forall k | k in keys :: k in abandoned || Served(workers, k))
    && (forall k | k in abandoned :: k in keys && !Served(workers, k))
  }

  /** The WaitGroup counts the goroutines, and worker names are not reused. */
  ghost predicate CountOk(workers: map<nat, Worker>, spawned: nat, wg: int) {
    wg == |workers| && forall w | w in workers :: w < spawned
  }

  ghost predicate WorkersOk(s: State) {
    && CountOk(s.workers, s.spawned, s.wg)
    && TableOk(s.workers, s.queues.Keys, s.abandoned)
    && (s.abandoned != {} ==> s.shutdown)
    && (s.shutdown <==> s.closer.Closed?)
  }

  /** Every event ever added is either started or still queued, in order. */
  ghost predicate Conserved(s: State) {
    forall k :: ConservedAt(s, k)
  }

  ghost predicate ConservedAt(s: State, k: Key) {
    At(s.started, k) + At(s.queues, k) == At(s.added, k)
  }

  /** What the histories say about one repository. */
  datatype View = View(started: seq<Event>, takers: seq<nat>, completed: seq<Event>, log: seq<Entry>)

  function Seen(s: State, k: Key): View {
    View(At(s.started, k), At(s.takers, k), At(s.completed, k), Restrict(s.log, k))
  }

  /** What has been done for one repository, given how far worker `w` is with its
      current event. */
  ghost predicate Progress(v: View, k: Key, w: nat, place: Place) {
    && |v.takers| == |v.started|
    && match place
       case Handling(event, ticket, done) =>
         && v.started == v.completed + [event]
         && ticket == |v.completed| && v.takers[ticket] == w
         && done <= |event.script|
         && v.log == Sequential(k, v.completed, v.takers) + Tagged(k, ticket, w, event.script[..done])
       case _ =>
         && v.started == v.completed
         && v.log == Sequential(k, v.completed, v.takers)
  }

  ghost predicate HistoriesOk(s: State) {
    && (forall w | w in s.workers && Active(s.workers[w]) ::
          Progress(Seen(s, s.workers[w].key), s.workers[w].key, w, s.workers[w].place))
    && (forall k | !Served(s.workers, k) :: Progress(Seen(s, k), k, 0, Exiting))
  }

  ghost predicate Inv(s: State) {
    WorkersOk(s) && Conserved(s) && HistoriesOk(s)
  }

  // ---------- every step keeps the invariant ----------

  lemma ServedMoved(workers: map<nat, Worker>, w: nat, place: Place, k: Key)
    requires w in workers && Active(workers[w])
    requires forall v | v in workers && Active(workers[v]) && workers[v].key == workers[w].key :: v == w
    ensures Served(workers[w := Worker(workers[w].key, place)], k) <==>
            if k == workers[w].key then !place.Exiting? else Served(workers, k)
  {
    var moved := workers[w := Worker(workers[w].key, place)];
    assert w in moved;
    if Served(workers, k) && k != workers[w].key {
      var v :| v in workers && workers[v].key == k && Active(workers[v]);
      assert v in moved && moved[v] == workers[v];
    }
  }

  lemma ServedSpawned(workers: map<nat, Worker>, w: nat, key: Key, k: Key)
    requires w !in workers
    ensures Served(workers[w := Worker(key, Selecting)], k) <==> Served(workers, k) || k == key
  {
    var grown := workers[w := Worker(key, Selecting)];
    assert grown[w] == Worker(key, Selecting);
    assert forall v | v in workers :: v in grown && grown[v] == workers[v];
  }

  lemma ServedRemoved(workers: map<nat, Worker>, w: nat, k: Key)
    requires w in workers && !Active(workers[w])
    ensures Served(workers - {w}, k) <==> Served(workers, k)
  {
    if Served(workers, k) {
      var v :| v in workers && workers[v].key == k && Active(workers[v]);
      assert v in workers - {w};
    }
  }

  lemma TableMoved(workers: map<nat, Worker>, keys: set<Key>, abandoned: set<Key>, w: nat, place: Place)
    requires TableOk(workers, keys, abandoned) && w in workers && Active(workers[w])
    ensures !place.Exiting? ==> TableOk(workers[w := Worker(workers[w].key, place)], keys, abandoned)
    ensures place.Exiting? ==>
              && TableOk(workers[w := Worker(workers[w].key, place)], keys - {workers[w].key}, abandoned)
              && TableOk(workers[w := Worker(workers[w].key, place)], keys, abandoned + {workers[w].key})
  {
    assert Served(workers, workers[w].key);
    forall k {
      ServedMoved(workers, w, place, k);
    }
  }

  lemma TableSpawned(workers: map<nat, Worker>, keys: set<Key>, abandoned: set<Key>, w: nat, key: Key)
    requires TableOk(workers, keys, abandoned) && w !in workers && key !in keys
    ensures TableOk(workers[w := Worker(key, Selecting)], keys + {key}, abandoned) && !Served(workers, key)
  {
    assert !Served(workers, key);
    forall k {
      ServedSpawned(workers, w, key, k);
    }
  }

  lemma TableRemoved(workers: map<nat, Worker>, keys: set<Key>, abandoned: set<Key>, w: nat)
    requires TableOk(workers, keys, abandoned) && w in workers && !Active(workers[w])
    ensures TableOk(workers - {w}, keys, abandoned)
  {
    forall k {
      ServedRemoved(workers, w, k);
    }
  }

  lemma CountKept(workers: map<nat, Worker>, spawned: nat, wg: int, w: nat, worker: Worker)
    requires CountOk(workers, spawned, wg)
    ensures w in workers ==> CountOk(workers[w := worker], spawned, wg) && CountOk(workers - {w}, spawned, wg - 1)
    ensures CountOk(workers[spawned := worker], spawned + 1, wg + 1)
  {
    assert |workers| == |workers.Keys|;
    if w in workers {
      assert workers[w := worker].Keys == workers.Keys;
      assert |workers[w := worker]| == |workers[w := worker].Keys|;
      assert (workers - {w}).Keys == workers.Keys - {w};
      assert |workers - {w}| == |(workers - {w}).Keys|;
    }
    assert workers[spawned := worker].Keys == workers.Keys + {spawned};
    assert |workers[spawned := worker]| == |workers[spawned := worker].Keys|;
  }

  lemma WorkersKeptAdd(s: State, k: Key, e: Event)
    requires WorkersOk(s)
    ensures WorkersOk(ApplyAdd(s, k, e))
  {
    assert ApplyAdd(s, k, e).queues.Keys == if k in s.queues then s.queues.Keys else s.queues.Keys + {k};
    if k !in s.queues {
      TableSpawned(s.workers, s.queues.Keys, s.abandoned, s.spawned, k);
      CountKept(s.workers, s.spawned, s.wg, s.spawned, Worker(k, Selecting));
    }
  }

  lemma KeysAfterWork(s: State, w: nat)
    requires WorkersOk(s) && w in s.workers
    ensures ApplyWork(s, w).queues.Keys ==
            if Deletes(s, s.workers[w]) then s.queues.Keys - {s.workers[w].key} else s.queues.Keys
  {
  }

  lemma WorkersKeptWork(s: State, w: nat)
    requires WorkersOk(s) && w in s.workers
    ensures WorkersOk(ApplyWork(s, w))
  {
    var worker := s.workers[w];
    CountKept(s.workers, s.spawned, s.wg, w, Worker(worker.key, Moved(s, worker)));
    TableAfterWork(s, w);
  }

  lemma TableAfterWork(s: State, w: nat)
    requires WorkersOk(s) && w in s.workers
    ensures var s' := ApplyWork(s, w); TableOk(s'.workers, s'.queues.Keys, s'.abandoned)
  {
    var worker := s.workers[w];
    KeysAfterWork(s, w);
    if worker.place.Exiting? {
      TableRemoved(s.workers, s.queues.Keys, s.abandoned, w);
    } else {
      TableMoved(s.workers, s.queues.Keys, s.abandoned, w, Moved(s, worker));
    }
  }

  lemma ConservedAdd(s: State, k: Key, e: Event)
    requires Conserved(s)
    ensures Conserved(ApplyAdd(s, k, e))
  {
    var s', started, queue := ApplyAdd(s, k, e), At(s.started, k), At(s.queues, k);
    assert At(s'.started, k) == started && At(s'.queues, k) == queue + [e] && At(s'.added, k) == At(s.added, k) + [e];
    assert started + (queue + [e]) == (started + queue) + [e];
    assert ConservedAt(s, k) && ConservedAt(s', k);
    assert forall j | j != k :: ConservedAt(s, j) ==> ConservedAt(s', j);
  }

  lemma ConservedWork(s: State, w: nat, k: Key)
    requires w in s.workers && ConservedAt(s, k)
    ensures ConservedAt(ApplyWork(s, w), k)
  {
    var s' := ApplyWork(s, w);
    if s.workers[w].key == k && Takes(s, s.workers[w]) {
      var started, events := At(s.started, k), At(s.queues, k);
      assert At(s'.started, k) == started + [events[0]] && At(s'.queues, k) == events[1..];
      assert (started + [events[0]]) + events[1..] == started + events;
    }
  }

  lemma RestrictSnoc(log: seq<Entry>, e: Entry, k: Key)
    ensures Restrict(log + [e], k) == if e.key == k then Restrict(log, k) + [e] else Restrict(log, k)
  {
    assert (log + [e])[..|log|] == log;
  }

  lemma SequentialSnoc(k: Key, events: seq<Event>, takers: seq<nat>, e: Event)
    requires |events| < |takers|
    ensures Sequential(k, events + [e], takers) ==
            Sequential(k, events, takers) + Tagged(k, |events|, takers[|events|], e.script)
  {
    assert (events + [e])[..|events|] == events;
  }

  /** Who takes later events is no matter for the earlier ones. */
  lemma {:induction false} SequentialTakers(k: Key, events: seq<Event>, takers: seq<nat>, w: nat)
    requires |events| <= |takers|
    ensures Sequential(k, events, takers + [w]) == Sequential(k, events, takers)
  {
    if events != [] {
      SequentialTakers(k, events[..|events| - 1], takers, w);
    }
  }

  lemma ProgressTake(v: View, k: Key, w: nat, e: Event)
    requires Progress(v, k, w, Locking)
    ensures Progress(v.(started := v.started + [e], takers := v.takers + [w]), k, w, Handling(e, |v.started|, 0))
  {
    SequentialTakers(k, v.completed, v.takers, w);
    assert Tagged(k, |v.completed|, w, e.script[..0]) == [];
  }

  lemma ProgressPerform(v: View, k: Key, w: nat, e: Event, ticket: nat, done: nat)
    requires Progress(v, k, w, Handling(e, ticket, done)) && done < |e.script|
    ensures Progress(v.(log := v.log + [Entry(k, ticket, w, e.script[done])]), k, w, Handling(e, ticket, done + 1))
  {
    var before, after := Tagged(k, ticket, w, e.script[..done]), Tagged(k, ticket, w, e.script[..done + 1]);
    var all, last := Sequential(k, v.completed, v.takers), Entry(k, ticket, w, e.script[done]);
    assert after == before + [last];
    assert all + (before + [last]) == (all + before) + [last];
  }

  lemma ProgressReturn(v: View, k: Key, w: nat, e: Event, ticket: nat, done: nat)
    requires Progress(v, k, w, Handling(e, ticket, done)) && done >= |e.script|
    ensures Progress(v.(completed := v.completed + [e]), k, w, Sleeping)
  {
    assert e.script[..done] == e.script;
    SequentialSnoc(k, v.completed, v.takers, e);
  }

  /** How the next action of its worker changes what is seen of a repository. */
  function NextView(v: View, k: Key, w: nat, place: Place, queue: seq<Event>): View {
    match place
    case Locking => if queue != [] then v.(started := v.started + [queue[0]], takers := v.takers + [w]) else v
    case Handling(e, ticket, done) =>
      if done < |e.script| then v.(log := v.log + [Entry(k, ticket, w, e.script[done])])
      else v.(completed := v.completed + [e])
    case _ => v
  }

  lemma ProgressNext(v: View, k: Key, w: nat, place: Place, queue: seq<Event>, shutdown: bool)
    requires Progress(v, k, w, place)
    ensures Progress(NextView(v, k, w, place, queue), k, w, NextPlace(place, queue, |v.started|, shutdown))
  {
    match place
    case Locking =>
      if queue != [] {
        ProgressTake(v, k, w, queue[0]);
      }
    case Handling(e, ticket, done) =>
      if done < |e.script| {
        ProgressPerform(v, k, w, e, ticket, done);
      } else {
        ProgressReturn(v, k, w, e, ticket, done);
      }
    case _ =>
  }

  lemma AtPut<T>(h: map<Key, seq<T>>, k: Key, x: T, j: Key)
    ensures At(Put(h, k, x), j) == if j == k then At(h, k) + [x] else At(h, j)
  {
  }

  lemma StartedAfterWork(s: State, w: nat, k: Key)
    requires w in s.workers
    ensures At(ApplyWork(s, w).started, k) ==
            if k == s.workers[w].key && Takes(s, s.workers[w]) then At(s.started, k) + [At(s.queues, k)[0]]
            else At(s.started, k)
  {
    if Takes(s, s.workers[w]) {
      AtPut(s.started, s.workers[w].key, At(s.queues, s.workers[w].key)[0], k);
    }
  }

  lemma TakersAfterWork(s: State, w: nat, k: Key)
    requires w in s.workers
    ensures At(ApplyWork(s, w).takers, k) ==
            if k == s.workers[w].key && Takes(s, s.workers[w]) then At(s.takers, k) + [w] else At(s.takers, k)
  {
    if Takes(s, s.workers[w]) {
      AtPut(s.takers, s.workers[w].key, w, k);
    }
  }

  lemma CompletedAfterWork(s: State, w: nat, k: Key)
    requires w in s.workers
    ensures At(ApplyWork(s, w).completed, k) ==
            if k == s.workers[w].key && Returns(s.workers[w]) then At(s.completed, k) + [s.workers[w].place.event]
            else At(s.completed, k)
  {
    if Returns(s.workers[w]) {
      AtPut(s.completed, s.workers[w].key, s.workers[w].place.event, k);
    }
  }

  lemma LogAfterWork(s: State, w: nat, k: Key)
    requires w in s.workers
    ensures var worker := s.workers[w];
            Restrict(ApplyWork(s, w).log, k) ==
            if k == worker.key && Performs(worker)
            then Restrict(s.log, k) + [Entry(k, worker.place.ticket, w, worker.place.event.script[worker.place.done])]
            else Restrict(s.log, k)
  {
    var worker := s.workers[w];
    if Performs(worker) {
      RestrictSnoc(s.log, Entry(worker.key, worker.place.ticket, w, worker.place.event.script[worker.place.done]), k);
    }
  }

  /** What one action of worker `w` changes for repository `k`: its own as
      `NextView` says, any other not at all. */
  lemma SeenAfterWork(s: State, w: nat, k: Key)
    requires w in s.workers
    ensures Seen(ApplyWork(s, w), k) ==
            if k == s.workers[w].key then NextView(Seen(s, k), k, w, s.workers[w].place, At(s.queues, k))
            else Seen(s, k)
  {
    StartedAfterWork(s, w, k);
    TakersAfterWork(s, w, k);
    CompletedAfterWork(s, w, k);
    LogAfterWork(s, w, k);
    match s.workers[w].place
    case Locking =>
    case Handling(e, ticket, done) =>
    case _ =>
  }

  /** The worker of a repository moves from one place to the next. */
  lemma ProgressOwn(s: State, w: nat)
    requires w in s.workers && Active(s.workers[w])
    requires Progress(Seen(s, s.workers[w].key), s.workers[w].key, w, s.workers[w].place)
    ensures Progress(Seen(ApplyWork(s, w), s.workers[w].key), s.workers[w].key, w, Moved(s, s.workers[w]))
  {
    var Worker(k, place) := s.workers[w];
    SeenAfterWork(s, w, k);
    ProgressNext(Seen(s, k), k, w, place, At(s.queues, k), s.shutdown);
  }

  lemma HistoriesKeptWork(s: State, w: nat)
    requires WorkersOk(s) && HistoriesOk(s) && w in s.workers
    ensures HistoriesOk(ApplyWork(s, w))
  {
    var s', worker := ApplyWork(s, w), s.workers[w];
    forall v | v in s'.workers && Active(s'.workers[v])
      ensures Progress(Seen(s', s'.workers[v].key), s'.workers[v].key, v, s'.workers[v].place)
    {
      if v == w {
        ProgressOwn(s, w);
      } else {
        SeenAfterWork(s, w, s.workers[v].key);
      }
    }
    forall k | !Served(s'.workers, k) ensures Progress(Seen(s', k), k, 0, Exiting) {
      if Active(worker) && k == worker.key {
        ProgressOwn(s, w);
        ServedMoved(s.workers, w, Moved(s, worker), k);
      } else {
        SeenAfterWork(s, w, k);
        if Active(worker) {
          ServedMoved(s.workers, w, Moved(s, worker), k);
        } else {
          ServedRemoved(s.workers, w, k);
        }
      }
    }
  }

  lemma HistoriesKeptAdd(s: State, k0: Key, e: Event)
    requires WorkersOk(s) && HistoriesOk(s)
    ensures HistoriesOk(ApplyAdd(s, k0, e))
  {
    var s' := ApplyAdd(s, k0, e);
    assert forall k :: Seen(s', k) == Seen(s, k);
    if k0 !in s.queues {
      assert !Served(s.workers, k0);
      forall k {
        ServedSpawned(s.workers, s.spawned, k0, k);
      }
    }
  }

  lemma InvKept(s: State, step: Step)
    requires Inv(s) && Enabled(s, step)
    ensures Inv(Apply(s, step))
  {
    match step
    case Add(k0, e) =>
      WorkersKeptAdd(s, k0, e);
      HistoriesKeptAdd(s, k0, e);
      ConservedAdd(s, k0, e);
    case Work(w) =>
      WorkersKeptWork(s, w);
      HistoriesKeptWork(s, w);
      forall k {
        ConservedWork(s, w, k);
      }
    case _ =>
      CloserKeeps(s, step);
  }

  /** The goroutine that closes touches nothing but itself and the shutdown signal. */
  lemma CloserOnly(s: State, step: Step)
    requires Enabled(s, step) && !step.Add? && !step.Work? && (s.shutdown <==> s.closer.Closed?)
    ensures var s' := Apply(s, step);
            && s' == s.(closer := s'.closer, shutdown := s'.shutdown)
            && (s.shutdown ==> s'.shutdown) && (s'.shutdown <==> s'.closer.Closed?)
  {
  }

  lemma CloserKeeps(s: State, step: Step)
    requires Inv(s) && Enabled(s, step) && !step.Add? && !step.Work?
    ensures Inv(Apply(s, step))
  {
    CloserOnly(s, step);
    SameButCloser(s, Apply(s, step).closer, Apply(s, step).shutdown);
  }

  lemma SameButCloser(s: State, closer: Closer, shutdown: bool)
    requires Inv(s) && (s.shutdown ==> shutdown) && (shutdown <==> closer.Closed?)
    ensures Inv(s.(closer := closer, shutdown := shutdown))
  {
    var s' := s.(closer := closer, shutdown := shutdown);
    assert forall k :: Seen(s', k) == Seen(s, k);
    assert forall k :: ConservedAt(s, k) ==> ConservedAt(s', k);
  }

  /** The invariant holds after every run. */
  lemma {:induction false} InvAlways(s: State, steps: seq<Step>)
    requires Inv(s) && IsRun(s, steps)
    ensures Inv(After(s, steps))
    decreases |steps|
  {
    if steps != [] {
      InvKept(s, steps[0]);
      InvAlways(Apply(s, steps[0]), steps[1..]);
    }
  }

  /** A state some run reaches from the start. */
  ghost predicate Reachable(s: State) {
    exists steps :: IsRun(INIT, steps) && s == After(INIT, steps)
  }

  lemma ReachableInv(s: State)
    requires Reachable(s)
    ensures Inv(s)
  {
    var steps :| IsRun(INIT, steps) && s == After(INIT, steps);
    InvAlways(INIT, steps);
  }

  // ---------- serialisation ----------

  /** Whatever the interleaving, what has been done for a repository is a prefix
      of the sequential processing of its events in the order they were added:
      whole scripts, then perhaps the beginning of one more, each by one worker. */
  lemma Serialised(s: State, k: Key)
    requires Reachable(s)
    ensures var started, takers, completed := At(s.started, k), At(s.takers, k), At(s.completed, k);
            && completed <= started <= At(s.added, k) && |takers| == |started|
            && (|| (started == completed && Restrict(s.log, k) == Sequential(k, completed, takers))
                || (|started| == |completed| + 1 && Begun(s.log, k, started, takers)))
  {
    ReachableInv(s);
    assert ConservedAt(s, k);
    if Served(s.workers, k) {
      var w :| w in s.workers && s.workers[w].key == k && Active(s.workers[w]);
      ProgressIsPrefix(Seen(s, k), k, w, s.workers[w].place, s.log);
    } else {
      ProgressIsPrefix(Seen(s, k), k, 0, Exiting, s.log);
    }
  }

  /** The log of the repository is that of whole scripts and the beginning of the last. */
  ghost predicate Begun(log: seq<Entry>, k: Key, started: seq<Event>, takers: seq<nat>)
    requires started != [] && |takers| == |started|
  {
    var n := |started| - 1;
    exists done | 0 <= done <= |started[n].script| ::
      Restrict(log, k) == Sequential(k, started[..n], takers) + Tagged(k, n, takers[n], started[n].script[..done])
  }

  lemma ProgressIsPrefix(v: View, k: Key, w: nat, place: Place, log: seq<Entry>)
    requires Progress(v, k, w, place) && v.log == Restrict(log, k)
    ensures v.completed <= v.started && |v.takers| == |v.started|
    ensures || (v.started == v.completed && v.log == Sequential(k, v.completed, v.takers))
            || (|v.started| == |v.completed| + 1 && Begun(log, k, v.started, v.takers))
  {
    match place
    case Handling(e, ticket, done) =>
      assert v.started[..ticket] == v.completed && v.started[ticket] == e;
      assert Begun(log, k, v.started, v.takers);
    case _ =>
  }

  lemma TaggedPrefix(k: Key, events: seq<Event>, takers: seq<nat>, done: nat)
    requires events != [] && |events| <= |takers| && done <= |events[|events| - 1].script|
    ensures var n := |events| - 1;
            Sequential(k, events[..n], takers) + Tagged(k, n, takers[n], events[n].script[..done]) <=
            Sequential(k, events, takers)
  {
    var n := |events| - 1;
    assert Tagged(k, n, takers[n], events[n].script[..done]) == Tagged(k, n, takers[n], events[n].script)[..done];
  }

  /** In every reachable state the log of a repository is a prefix of that of
      handling its events one after the other in the order they were added. */
  lemma LogIsPrefix(s: State, k: Key)
    requires Reachable(s)
    ensures At(s.started, k) <= At(s.added, k) && |At(s.takers, k)| == |At(s.started, k)|
    ensures Restrict(s.log, k) <= Sequential(k, At(s.started, k), At(s.takers, k))
  {
    Serialised(s, k);
    var started, takers := At(s.started, k), At(s.takers, k);
    if |started| == |At(s.completed, k)| + 1 {
      var n := |started| - 1;
      var done :| 0 <= done <= |started[n].script| &&
                  Restrict(s.log, k) ==
                  Sequential(k, started[..n], takers) + Tagged(k, n, takers[n], started[n].script[..done]);
      TaggedPrefix(k, started, takers, done);
    }
  }

  /** Tickets never decrease along the log of a repository, and all effects with one
      ticket are of one worker: two reviews of one repository never overlap. */
  lemma NoOverlap(s: State, i: nat, j: nat)
    requires Reachable(s) && i < j < |s.log| && s.log[i].key == s.log[j].key
    ensures s.log[i].ticket <= s.log[j].ticket
    ensures s.log[i].ticket == s.log[j].ticket ==> s.log[i].worker == s.log[j].worker
    ensures forall m | i < m < j && s.log[m].key == s.log[i].key && s.log[i].ticket == s.log[j].ticket ::
              s.log[m].ticket == s.log[i].ticket && s.log[m].worker == s.log[i].worker
  {
    var k := s.log[i].key;
    LogIsPrefix(s, k);
    SequentialTickets(k, At(s.started, k), At(s.takers, k));
    assert Ticketed(Restrict(s.log, k), At(s.takers, k));
    RestrictTickets(s.log, k, At(s.takers, k), i, j);
    forall m | i < m < j && s.log[m].key == k
      ensures s.log[i].ticket <= s.log[m].ticket <= s.log[j].ticket
      ensures s.log[i].ticket == s.log[m].ticket ==> s.log[m].worker == s.log[i].worker
    {
      RestrictTickets(s.log, k, At(s.takers, k), i, m);
      RestrictTickets(s.log, k, At(s.takers, k), m, j);
    }
  }

  /** Tickets never decrease, and each is worked on by the worker that took it. */
  ghost predicate Ticketed(log: seq<Entry>, takers: seq<nat>) {
    && (forall i | 0 <= i < |log| :: log[i].ticket < |takers| && log[i].worker == takers[log[i].ticket])
    && (forall i, j | 0 <= i < j < |log| :: log[i].ticket <= log[j].ticket)
  }

  lemma {:induction false} SequentialTickets(k: Key, events: seq<Event>, takers: seq<nat>)
    requires |events| <= |takers|
    ensures Ticketed(Sequential(k, events, takers), takers)
    ensures forall i | 0 <= i < |Sequential(k, events, takers)| :: Sequential(k, events, takers)[i].ticket < |events|
  {
    if events != [] {
      SequentialTickets(k, events[..|events| - 1], takers);
    }
  }

  lemma {:induction false} RestrictTickets(log: seq<Entry>, k: Key, takers: seq<nat>, i: nat, j: nat)
    requires Ticketed(Restrict(log, k), takers) && i < j < |log| && log[i].key == log[j].key == k
    ensures log[i].ticket <= log[j].ticket
    ensures log[i].ticket == log[j].ticket ==> log[i].worker == log[j].worker
  {
    var last := |log| - 1;
    var all, rest := Restrict(log, k), Restrict(log[..last], k);
    assert forall m | 0 <= m < |rest| :: rest[m] == all[m];
    if j == last {
      RestrictHas(log[..last], k, i);
      var m :| 0 <= m < |rest| && rest[m] == log[i];
      assert all[m] == log[i] && all[|rest|] == log[j];
    } else {
      RestrictTickets(log[..last], k, takers, i, j);
    }
  }

  lemma {:induction false} RestrictHas(log: seq<Entry>, k: Key, i: nat)
    requires i < |log| && log[i].key == k
    ensures log[i] in Restrict(log, k)
  {
    if i < |log| - 1 {
      RestrictHas(log[..|log| - 1], k, i);
    }
  }

  /** A worker at the mutex always finds its queue in the map; while no shutdown
      has been signalled the repositories with a queue are exactly those with a
      worker; afterwards exactly the abandoned ones have a queue and no worker. */
  lemma QueuesAndWorkers(s: State)
    requires Reachable(s)
    ensures forall w | w in s.workers && s.workers[w].place.Locking? :: s.workers[w].key in s.queues
    ensures !s.shutdown ==> forall k :: k in s.queues <==> Served(s.workers, k)
    ensures forall k :: k in s.abandoned <==> k in s.queues && !Served(s.workers, k)
    ensures s.wg == |s.workers|
  {
    ReachableInv(s);
  }

  // ---------- shutdown ----------

  /** Seeing no queue at all before the shutdown means every event is handled. */
  lemma EmptyMeansHandled(s: State, k: Key)
    requires Reachable(s) && !s.shutdown && s.queues == map[]
    ensures At(s.completed, k) == At(s.added, k)
  {
    ReachableInv(s);
    EmptyMeansHandledInv(s, k);
  }

  lemma EmptyMeansHandledInv(s: State, k: Key)
    requires Inv(s) && !s.shutdown && s.queues == map[]
    ensures At(s.completed, k) == At(s.added, k)
  {
    assert ConservedAt(s, k);
    assert !Served(s.workers, k);
    assert Progress(Seen(s, k), k, 0, Exiting);
  }

  /** When the wait for the workers ends, every event added so far is handled,
      however many were added since the map was seen empty. */
  lemma JoinMeansHandled(s: State, k: Key)
    requires Inv(s) && Enabled(s, Join)
    ensures s.workers == map[] && s.queues == map[] && At(s.completed, k) == At(s.added, k)
  {
    assert s.workers == map[];
    assert forall j :: !Served(s.workers, j);
    assert s.queues == map[];
    EmptyMeansHandledInv(s, k);
  }

  /** Nothing is left to do and no goroutine to do it. */
  ghost predicate Drained(s: State) {
    && s.queues == map[] && s.workers == map[] && (s.closer.Closing? || s.closer.Closed?)
    && forall k :: At(s.completed, k) == At(s.added, k)
  }

  lemma {:induction false} DrainedAlways(s: State, steps: seq<Step>)
    requires Drained(s) && IsRun(s, steps) && forall step | step in steps :: !step.Add?
    ensures Drained(After(s, steps))
    decreases |steps|
  {
    if steps != [] {
      assert steps[0] in steps;
      DrainedAlways(Apply(s, steps[0]), steps[1..]);
    }
  }

  /** When no event is added after the wait for the workers ended, then by the time
      GraceFullShutdown closes the channel every event is handled and no goroutine
      is left. Events may be added freely before, also after the map was seen empty. */
  lemma GracefulShutdown(s: State, steps: seq<Step>)
    requires Reachable(s) && Enabled(s, Join)
    requires IsRun(s, [Join] + steps) && forall step | step in steps :: !step.Add?
    ensures var t := After(s, [Join] + steps);
            && t.workers == map[] && t.queues == map[]
            && forall k :: At(t.completed, k) == At(t.added, k)
  {
    ReachableInv(s);
    assert ([Join] + steps)[1..] == steps;
    forall k ensures s.workers == map[] && s.queues == map[] && At(s.completed, k) == At(s.added, k) {
      JoinMeansHandled(s, k);
    }
    DrainedAlways(Apply(s, Join), steps);
  }

  /** GraceFullShutdown has waited, and closes the channel next or has closed it. */
  predicate PastWait(s: State) {
    s.closer.Closing? || s.closer.Closed?
  }

  /** The waiting loop goes round again exactly when it finds a queue. */
  lemma WatchesOn(s: State)
    requires Enabled(s, Observe)
    ensures Apply(s, Observe) == s.(closer := Apply(s, Observe).closer)
    ensures Apply(s, Observe).closer.Watching? <==> s.queues.Keys != {}
    ensures !PastWait(Apply(s, Observe))
  {
  }

  /** Whatever step ends the wait, it finds no goroutine and no queue left, and every
      event added so far handled. */
  lemma WaitEnds(s: State, step: Step)
    requires Inv(s) && Enabled(s, step) && !PastWait(s) && PastWait(Apply(s, step))
    ensures s.workers == map[] && s.queues == map[] && Drained(Apply(s, step))
    ensures forall k :: At(s.completed, k) == At(s.added, k)
  {
    forall k ensures s.workers == map[] && s.queues == map[] && At(s.completed, k) == At(s.added, k) {
      JoinMeansHandled(s, k);
    }
  }

  /** No event is added once GraceFullShutdown has waited. */
  ghost predicate QuietPastWait(s: State, steps: seq<Step>)
    requires IsRun(s, steps)
    decreases |steps|
  {
    steps != [] ==> (PastWait(s) ==> !steps[0].Add?) && QuietPastWait(Apply(s, steps[0]), steps[1..])
  }

  lemma {:induction false} DrainedPastWait(s: State, steps: seq<Step>)
    requires Inv(s) && (PastWait(s) ==> Drained(s)) && IsRun(s, steps) && QuietPastWait(s, steps)
    ensures PastWait(After(s, steps)) ==> Drained(After(s, steps))
    decreases |steps|
  {
    if steps != [] {
      InvKept(s, steps[0]);
      if !PastWait(s) && PastWait(Apply(s, steps[0])) {
        WaitEnds(s, steps[0]);
      }
      DrainedPastWait(Apply(s, steps[0]), steps[1..]);
    }
  }

  /** The events that the steps add for a repository, in order. */
  function AddsOf(steps: seq<Step>, k: Key): seq<Event> {
    if steps == [] then []
    else (if steps[0].Add? && steps[0].key == k then [steps[0].event] else []) + AddsOf(steps[1..], k)
  }

  lemma AddedByStep(s: State, step: Step, k: Key)
    requires Enabled(s, step)
    ensures At(Apply(s, step).added, k) ==
            At(s.added, k) + if step.Add? && step.key == k then [step.event] else []
  {
  }

  lemma JoinThree<T>(a: seq<T>, b: seq<T>, c: seq<T>)
    ensures a + (b + c) == a + b + c && a + [] == a
  {
  }

  lemma {:induction false} AddedInOrder(s: State, steps: seq<Step>, k: Key)
    requires IsRun(s, steps)
    ensures At(After(s, steps).added, k) == At(s.added, k) + AddsOf(steps, k)
    decreases |steps|
  {
    if steps != [] {
      var added := if steps[0].Add? && steps[0].key == k then [steps[0].event] else [];
      AddedByStep(s, steps[0], k);
      AddedInOrder(Apply(s, steps[0]), steps[1..], k);
      JoinThree(At(s.added, k), added, AddsOf(steps[1..], k));
    }
  }

  /** Every run from the start: once the channel is about to be closed or is closed, and
      nothing was added after the wait, all events of the run are handled, each
      repository's in the order of their addition, and no goroutine is left. */
  lemma ShutdownHandlesAll(steps: seq<Step>)
    requires IsRun(INIT, steps) && QuietPastWait(INIT, steps)
    requires var closer := After(INIT, steps).closer; closer.Closing? || closer.Closed?
    ensures var t := After(INIT, steps);
            && t.workers == map[] && t.queues == map[]
            && forall k :: At(t.completed, k) == AddsOf(steps, k)
  {
    DrainedPastWait(INIT, steps);
    forall k {
      AddedInOrder(INIT, steps, k);
    }
  }

  /** Some worker of the repository has passed the test of the shutdown channel and
      is about to look for an event. */
  ghost predicate AtMutex(s: State, k: Key) {
    exists w | w in s.workers :: s.workers[w].key == k && s.workers[w].place.Locking?
  }

  /** The events of a repository that nobody will take any more once the shutdown is
      signalled: all its queued ones, but for the one a worker at the mutex takes. */
  ghost function Stranded(s: State, k: Key): nat {
    |At(s.queues, k)| - if AtMutex(s, k) && At(s.queues, k) != [] then 1 else 0
  }

  /** Past the shutdown no worker comes to the mutex any more. */
  lemma NoneLocks(s: State, w: nat)
    requires s.shutdown && w in s.workers
    ensures var s' := ApplyWork(s, w);
            && (w in s'.workers ==> s'.workers[w].key == s.workers[w].key && !s'.workers[w].place.Locking?)
            && forall v | v != w ::
                 (v in s'.workers <==> v in s.workers) && (v in s.workers ==> s'.workers[v] == s.workers[v])
  {
  }

  lemma MutexAfterWork(s: State, w: nat, k: Key)
    requires WorkersOk(s) && s.shutdown && w in s.workers
    ensures AtMutex(ApplyWork(s, w), k) <==> AtMutex(s, k) && !(k == s.workers[w].key && s.workers[w].place.Locking?)
  {
    NoneLocks(s, w);
    var s' := ApplyWork(s, w);
    if v :| v in s.workers && s.workers[v].key == k && s.workers[v].place.Locking? {
      assert v != w ==> v in s'.workers && s'.workers[v] == s.workers[v];
    }
  }

  lemma QueueAfterWork(s: State, w: nat, k: Key)
    requires w in s.workers
    ensures At(ApplyWork(s, w).queues, k) ==
            if k == s.workers[w].key && Takes(s, s.workers[w]) then At(s.queues, k)[1..] else At(s.queues, k)
  {
  }

  lemma StrandedKept(s: State, step: Step, k: Key)
    requires Inv(s) && s.shutdown && Enabled(s, step) && !step.Add?
    ensures Stranded(Apply(s, step), k) == Stranded(s, k)
  {
    match step
    case Work(w) =>
      MutexAfterWork(s, w, k);
      QueueAfterWork(s, w, k);
    case _ =>
  }

  /** An event added after the shutdown was signalled is stranded, unless a worker at
      the mutex finds it as the only one. */
  lemma AddStrands(s: State, k: Key, e: Event)
    requires Inv(s) && s.shutdown
    ensures Stranded(ApplyAdd(s, k, e), k) == Stranded(s, k) + if AtMutex(s, k) && At(s.queues, k) == [] then 0 else 1
  {
    var s' := ApplyAdd(s, k, e);
    if v :| v in s.workers && s.workers[v].key == k && s.workers[v].place.Locking? {
      assert v in s'.workers && s'.workers[v] == s.workers[v];
    }
    if v :| v in s'.workers && s'.workers[v].key == k && s'.workers[v].place.Locking? {
      assert v in s.workers && s.workers[v] == s'.workers[v];
    }
  }

  lemma {:induction false} StrandedAlways(s: State, steps: seq<Step>, k: Key)
    requires Inv(s) && s.shutdown && IsRun(s, steps) && forall step | step in steps :: !step.Add?
    ensures var t := After(s, steps);
            Inv(t) && t.shutdown && Stranded(t, k) == Stranded(s, k) && At(t.added, k) == At(s.added, k)
    decreases |steps|
  {
    if steps != [] {
      assert steps[0] in steps;
      InvKept(s, steps[0]);
      StrandedKept(s, steps[0], k);
      StrandedAlways(Apply(s, steps[0]), steps[1..], k);
    }
  }

  /** After the shutdown was signalled and the last event was added, exactly the
      stranded events are left behind when the goroutines are gone: all others are
      handled. So every event is handled if and only if none is stranded. */
  lemma LeftBehind(s: State, steps: seq<Step>, k: Key)
    requires Inv(s) && s.shutdown && IsRun(s, steps) && forall step | step in steps :: !step.Add?
    requires After(s, steps).workers == map[]
    ensures var t := After(s, steps);
            && At(t.completed, k) <= At(s.added, k)
            && |At(t.completed, k)| + Stranded(s, k) == |At(s.added, k)|
            && (At(t.completed, k) == At(s.added, k) <==> Stranded(s, k) == 0)
  {
    StrandedAlways(s, steps, k);
    var t := After(s, steps);
    assert !Served(t.workers, k) && !AtMutex(t, k);
    assert Progress(Seen(t, k), k, 0, Exiting) && ConservedAt(t, k);
  }

  /** An abandoned repository is never served again. */
  lemma {:induction false} AbandonedForever(s: State, steps: seq<Step>, k: Key)
    requires Inv(s) && IsRun(s, steps) && k in s.abandoned
    ensures var t := After(s, steps);
            && k in t.abandoned && At(t.started, k) == At(s.started, k) && Restrict(t.log, k) == Restrict(s.log, k)
    decreases |steps|
  {
    if steps != [] {
      var s' := Apply(s, steps[0]);
      InvKept(s, steps[0]);
      match steps[0] {
        case Work(w) =>
          SeenAfterWork(s, w, k);
          assert Seen(s', k) == Seen(s, k);
        case _ =>
      }
      AbandonedForever(s', steps[1..], k);
    }
  }

  /** An event added between the observation and the close can be stranded: here
      it stays in its queue with no worker, and `AbandonedForever` applies. */
  lemma ShutdownCanStrand(k: Key, e: Event)
    ensures exists s :: Reachable(s) && k in s.abandoned && At(s.queues, k) == [e] && At(s.started, k) == []
  {
    var s1 := Apply(Apply(INIT, Observe), Join);
    var s2 := Apply(s1, Add(k, e));
    var s3 := Apply(s2, Close);
    var s4 := Apply(s3, Work(0));
    assert s2.workers == map[0 := Worker(k, Selecting)] && s2.closer.Closing?;
    assert s4.abandoned == {k} && At(s4.queues, k) == [e];
    var run := [Observe, Join, Add(k, e), Close, Work(0)];
    assert run[1..] == [Join, Add(k, e), Close, Work(0)];
    assert run[1..][1..] == [Add(k, e), Close, Work(0)];
    assert run[1..][1..][1..] == [Close, Work(0)];
    assert run[1..][1..][1..][1..] == [Work(0)];
    assert IsRun(s4, []) && IsRun(s3, [Work(0)]) && IsRun(s2, [Close, Work(0)]);
    assert IsRun(s1, [Add(k, e), Close, Work(0)]);
    assert IsRun(INIT, run);
    assert After(s3, [Work(0)]) == s4;
    assert After(s2, [Close, Work(0)]) == s4;
    assert After(s1, [Add(k, e), Close, Work(0)]) == s4;
    assert After(INIT, run) == s4;
    assert Reachable(s4);
  }

  // ---------- every worker step is progress ----------

  function PlaceCost(place: Place): nat {
    match place
    case Selecting => 3
    case Locking => 2
    case Handling(e, _, done) => 5 + if done < |e.script| then |e.script| - done else 0
    case Sleeping => 4
    case Exiting => 1
  }

  function QueueCost(queue: seq<Event>): nat {
    if queue == [] then 0 else |queue[0].script| + 4 + QueueCost(queue[1..])
  }

  ghost function WorkerCosts(workers: map<nat, Worker>): map<nat, nat> {
    map w | w in workers :: PlaceCost(workers[w].place)
  }

  ghost function QueueCosts(queues: map<Key, seq<Event>>): map<Key, nat> {
    map k | k in queues :: QueueCost(queues[k])
  }

  /** The work left to do: steps of the present workers and of the queued events. */
  ghost function Remaining(s: State): nat {
    Sums.Total(WorkerCosts(s.workers)) + Sums.Total(QueueCosts(s.queues))
  }

  lemma QueueCostsSet(queues: map<Key, seq<Event>>, k: Key, queue: seq<Event>)
    requires k in queues
    ensures Sums.Total(QueueCosts(queues[k := queue])) + QueueCost(queues[k]) ==
            Sums.Total(QueueCosts(queues)) + QueueCost(queue)
  {
    assert QueueCosts(queues[k := queue]) == QueueCosts(queues)[k := QueueCost(queue)];
    Sums.TotalSet(QueueCosts(queues), k, QueueCost(queue));
  }

  lemma QueueCostsDrop(queues: map<Key, seq<Event>>, k: Key)
    ensures Sums.Total(QueueCosts(queues - {k})) <= Sums.Total(QueueCosts(queues))
  {
    assert QueueCosts(queues - {k}) == QueueCosts(queues) - {k};
    Sums.TotalSet(QueueCosts(queues), k, 0);
  }

  lemma WorkerCostsSet(workers: map<nat, Worker>, w: nat, worker: Worker)
    requires w in workers
    ensures Sums.Total(WorkerCosts(workers[w := worker])) + PlaceCost(workers[w].place) ==
            Sums.Total(WorkerCosts(workers)) + PlaceCost(worker.place)
    ensures Sums.Total(WorkerCosts(workers - {w})) + PlaceCost(workers[w].place) == Sums.Total(WorkerCosts(workers))
  {
    assert WorkerCosts(workers[w := worker]) == WorkerCosts(workers)[w := PlaceCost(worker.place)];
    assert WorkerCosts(workers - {w}) == WorkerCosts(workers) - {w};
    Sums.TotalSet(WorkerCosts(workers), w, PlaceCost(worker.place));
  }

  lemma WorkersCostAfter(s: State, w: nat)
    requires w in s.workers
    ensures Sums.Total(WorkerCosts(ApplyWork(s, w).workers)) + PlaceCost(s.workers[w].place) ==
            Sums.Total(WorkerCosts(s.workers)) +
            if s.workers[w].place.Exiting? then 0 else PlaceCost(Moved(s, s.workers[w]))
  {
    WorkerCostsSet(s.workers, w, Worker(s.workers[w].key, Moved(s, s.workers[w])));
  }

  lemma QueuesCostAfter(s: State, w: nat)
    requires w in s.workers
    ensures Sums.Total(QueueCosts(ApplyWork(s, w).queues)) <=
            Sums.Total(QueueCosts(s.queues)) -
            if Takes(s, s.workers[w]) then |At(s.queues, s.workers[w].key)[0].script| + 4 else 0
  {
    var worker := s.workers[w];
    if Takes(s, worker) {
      QueueCostsSet(s.queues, worker.key, s.queues[worker.key][1..]);
    } else if Deletes(s, worker) {
      QueueCostsDrop(s.queues, worker.key);
    }
  }

  /** Each worker step strictly decreases the work left. */
  lemma WorkDecreases(s: State, w: nat)
    requires w in s.workers
    ensures Remaining(ApplyWork(s, w)) < Remaining(s)
  {
    WorkersCostAfter(s, w);
    QueuesCostAfter(s, w);
  }

  /** What one more event adds to the work left: its own share and that of a worker. */
  function EventCost(e: Event): nat {
    |e.script| + 7
  }

  lemma {:induction false} QueueCostSnoc(queue: seq<Event>, e: Event)
    ensures QueueCost(queue + [e]) == QueueCost(queue) + |e.script| + 4
  {
    if queue != [] {
      assert (queue + [e])[1..] == queue[1..] + [e];
      QueueCostSnoc(queue[1..], e);
    } else {
      assert queue + [e] == [e];
    }
  }

  lemma QueuesCostAdded(queues: map<Key, seq<Event>>, k: Key, e: Event)
    ensures Sums.Total(QueueCosts(Put(queues, k, e))) == Sums.Total(QueueCosts(queues)) + |e.script| + 4
  {
    QueueCostSnoc(At(queues, k), e);
    assert QueueCosts(Put(queues, k, e)) == QueueCosts(queues)[k := QueueCost(At(queues, k) + [e])];
    Sums.TotalSet(QueueCosts(queues), k, QueueCost(At(queues, k) + [e]));
  }

  lemma WorkersCostSpawned(workers: map<nat, Worker>, w: nat, k: Key)
    requires w !in workers
    ensures Sums.Total(WorkerCosts(workers[w := Worker(k, Selecting)])) == Sums.Total(WorkerCosts(workers)) + 3
  {
    assert WorkerCosts(workers[w := Worker(k, Selecting)]) == WorkerCosts(workers)[w := 3];
    Sums.TotalSet(WorkerCosts(workers), w, 3);
  }

  lemma AddCosts(s: State, k: Key, e: Event)
    requires WorkersOk(s)
    ensures Remaining(ApplyAdd(s, k, e)) <= Remaining(s) + EventCost(e)
  {
    QueuesCostAdded(s.queues, k, e);
    if k !in s.queues {
      WorkersCostSpawned(s.workers, s.spawned, k);
    }
  }

  /** How many of the steps are workers'. */
  function Works(steps: seq<Step>): nat {
    if steps == [] then 0 else (if steps[0].Work? then 1 else 0) + Works(steps[1..])
  }

  /** The work the steps bring in. */
  function Brought(steps: seq<Step>): nat {
    if steps == [] then 0 else (if steps[0].Add? then EventCost(steps[0].event) else 0) + Brought(steps[1..])
  }

  lemma StepCosts(s: State, step: Step)
    requires Inv(s) && Enabled(s, step)
    ensures Remaining(Apply(s, step)) + (if step.Work? then 1 else 0) <=
            Remaining(s) + if step.Add? then EventCost(step.event) else 0
  {
    match step
    case Add(k, e) => AddCosts(s, k, e);
    case Work(w) => WorkDecreases(s, w);
    case _ =>
  }

  /** In every run the workers make at most as many steps as the work left at the
      start and the events added call for. When no worker is left, every event has been
      handled, unless a shutdown came between. */
  lemma {:induction false} WorkersDrain(s: State, steps: seq<Step>)
    requires Inv(s) && IsRun(s, steps)
    ensures var t := After(s, steps);
            && Works(steps) + Remaining(t) <= Remaining(s) + Brought(steps)
            && (t.workers == map[] && !t.shutdown ==>
                  t.queues == map[] && forall k :: At(t.completed, k) == At(t.added, k))
    decreases |steps|
  {
    if steps != [] {
      StepCosts(s, steps[0]);
      InvKept(s, steps[0]);
      WorkersDrain(Apply(s, steps[0]), steps[1..]);
    } else if s.workers == map[] && !s.shutdown {
      assert forall k :: k !in s.queues;
      forall k ensures At(s.completed, k) == At(s.added, k) {
        EmptyMeansHandledInv(s, k);
      }
    }
  }

  // ---------- the object ----------

  /** RepositoryQueue with its goroutines. Every method is one step of the machine
      above, so what holds of all its runs holds of all calls in any order. */
  class RepositoryQueue {
    var queues: map<Key, seq<Event>>
    var wg: int
    var shutdown: bool
    var workers: map<nat, Worker>
    var spawned: nat
    var closer: Closer
    ghost var added: map<Key, seq<Event>>
    var started: map<Key, seq<Event>>
    ghost var takers: map<Key, seq<nat>>
    ghost var completed: map<Key, seq<Event>>
    ghost var abandoned: set<Key>
    ghost var log: seq<Entry>

    ghost function Model(): State
      reads this
    {
      State(queues, wg, shutdown, workers, spawned, closer, added, started, takers, completed, abandoned, log)
    }

    constructor ()
      ensures Model() == INIT
    {
      queues, wg, shutdown, workers, spawned, closer := map[], 0, false, map[], 0, Watching;
      added, started, takers, completed, abandoned, log := map[], map[], map[], map[], {}, [];
    }

    /** Called by QueueReviewer.PullRequestReview. */
    method AddEvent(k: Key, e: Event)
      modifies this
      ensures Model() == Apply(old(Model()), Add(k, e))
    {
      if k !in queues {
        wg := wg + 1;
        workers := workers[spawned := Worker(k, Selecting)];
        spawned := spawned + 1;
      }
      queues := Put(queues, k, e);
      added := Put(added, k, e);
    }

    /** The section of ReceiveEvent under the mutex. */
    method TakeEvent(w: nat)
      requires w in workers && workers[w].place.Locking?
      modifies this
      ensures Model() == Apply(old(Model()), Work(w))
    {
      var k := workers[w].key;
      if k in queues && |queues[k]| > 0 {
        var eventEntry := queues[k][0];
        queues := queues[k := queues[k][1..]];
        var ticket := |At(started, k)|;
        started := Put(started, k, eventEntry);
        takers := Put(takers, k, w);
        workers := workers[w := Worker(k, Handling(eventEntry, ticket, 0))];
      } else {
        queues := queues - {k};
        workers := workers[w := Worker(k, Exiting)];
      }
    }

    /** HandleEvent: its next remote effect, or its return. */
    method Handle(w: nat)
      requires w in workers && workers[w].place.Handling?
      modifies this
      ensures Model() == Apply(old(Model()), Work(w))
    {
      var Worker(k, Handling(e, ticket, done)) := workers[w];
      if done < |e.script| {
        log := log + [Entry(k, ticket, w, e.script[done])];
        workers := workers[w := Worker(k, Handling(e, ticket, done + 1))];
      } else {
        completed := Put(completed, k, e);
        workers := workers[w := Worker(k, Sleeping)];
      }
    }

    /** Runs the goroutine `w` up to the next point where others may interleave. */
    method ReceiveEvent(w: nat)
      requires w in workers
      modifies this
      ensures Model() == Apply(old(Model()), Work(w))
    {
      var Worker(k, place) := workers[w];
      match place {
        case Selecting =>
          if shutdown {
            abandoned := abandoned + {k};
            workers := workers[w := Worker(k, Exiting)];
          } else {
            workers := workers[w := Worker(k, Locking)];
          }
        case Locking =>
          TakeEvent(w);
        case Handling(_, _, _) =>
          Handle(w);
        case Sleeping =>
          workers := workers[w := Worker(k, Selecting)];
        case Exiting =>
          workers := workers - {w};
          wg := wg - 1;
      }
    }

    /** One round of the waiting loop of WaitUntilFinished. */
    method ObserveEntries() returns (empty: bool)
      requires closer.Watching?
      modifies this
      ensures Model() == Apply(old(Model()), Observe)
      ensures empty <==> old(queues) == map[]
    {
      empty := |queues| == 0;
      if empty {
        closer := Joining;
      }
    }

    /** `wg.Wait` returns. */
    method JoinWorkers()
      requires closer.Joining? && wg == 0
      modifies this
      ensures Model() == Apply(old(Model()), Join)
    {
      closer := Closing;
    }

    method CloseShutdown()
      requires closer.Closing?
      modifies this
      ensures Model() == Apply(old(Model()), Close)
    {
      shutdown := true;
      closer := Closed;
    }
  }
}
