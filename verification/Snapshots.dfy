/** The two-core snapshot protocol of src/fanpico.c, src/command_util.c and src/i2c.c.

    Core 0 changes the configuration and shows the system state; core 1 works on its own copy of the
    configuration and its own state. Copies are taken word by word, in any order, while a mutex is
    held; the other core may take steps in between. */
module Snapshots {

  type Word = int
  type Block = seq<Word>

  datatype Holder = Nobody | Core0 | Core1

  /** Core 0: idle, inside a setter (or an I2C update), or copying the transferred state; `done` holds
      the words copied so far. */
  datatype Pc0 = Idle0 | Setting | Fetching(done: set<nat>)

  /** Core 1: idle, copying the configuration, or publishing its state. */
  datatype Pc1 = Idle1 | Refreshing(done: set<nat>) | Publishing(done: set<nat>)

  /** Memory, mutexes and program counters, with the history needed to speak about instants:
      `committed` lists the configuration at start and after every setter, `life` every state core 1
      ever had; `localAt`, `sentAt` and `shownAt` say which entries the copies stand for. */
  datatype World = World(
    config: Block, localConfig: Block, state: Block, transfer: Block, system: Block,
    configMutex: Holder, stateMutex: Holder, pc0: Pc0, pc1: Pc1,
    committed: seq<Block>, life: seq<Block>, localAt: nat, sentAt: nat, shownAt: nat)

  datatype Action =
    | EnterSetter | WriteConfig(at: nat, word: Word) | LeaveSetter
    | EnterFetch | FetchWord(at: nat) | LeaveFetch
    | Work(at: nat, word: Word)
    | EnterRefresh | RefreshWord(at: nat) | LeaveRefresh
    | EnterPublish | PublishWord(at: nat) | LeavePublish

  predicate Complete(done: set<nat>, b: Block) {
    forall k :: 0 <= k < |b| ==> k in done
  }

  /** A step that the program cannot take in its present state changes nothing: a core waits for a
      mutex, gives up on it, or is somewhere else in its code. */
  function Step(w: World, a: Action): World {
    match a
    // Core 0: run_cmd around a setter, i2c_read_temps around its writes
    case EnterSetter =>
      if w.pc0.Idle0? && w.configMutex.Nobody? then w.(pc0 := Setting, configMutex := Core0) else w
    case WriteConfig(at, word) =>
      if w.pc0.Setting? && at < |w.config| then w.(config := w.config[at := word]) else w
    case LeaveSetter =>
      if w.pc0.Setting? then
        w.(pc0 := Idle0, configMutex := Nobody, committed := w.committed + [w.config])
      else w
    // Core 0: update_system_state
    case EnterFetch =>
      if w.pc0.Idle0? && w.stateMutex.Nobody? then w.(pc0 := Fetching({}), stateMutex := Core0) else w
    case FetchWord(at) =>
      if w.pc0.Fetching? && at < |w.transfer| && at < |w.system| then
        w.(pc0 := Fetching(w.pc0.done + {at}), system := w.system[at := w.transfer[at]])
      else w
    case LeaveFetch =>
      if w.pc0.Fetching? && Complete(w.pc0.done, w.system) then
        w.(pc0 := Idle0, stateMutex := Nobody, shownAt := w.sentAt)
      else w
    // Core 1: the control loop
    case Work(at, word) =>
      if w.pc1.Idle1? && at < |w.state| then
        var s := w.state[at := word];
        w.(state := s, life := w.life + [s])
      else w
    case EnterRefresh =>
      if w.pc1.Idle1? && w.configMutex.Nobody? then w.(pc1 := Refreshing({}), configMutex := Core1) else w
    case RefreshWord(at) =>
      if w.pc1.Refreshing? && at < |w.config| && at < |w.localConfig| then
        w.(pc1 := Refreshing(w.pc1.done + {at}), localConfig := w.localConfig[at := w.config[at]])
      else w
    case LeaveRefresh =>
      if w.pc1.Refreshing? && Complete(w.pc1.done, w.localConfig) && w.committed != [] then
        w.(pc1 := Idle1, configMutex := Nobody, localAt := |w.committed| - 1)
      else w
    case EnterPublish =>
      if w.pc1.Idle1? && w.stateMutex.Nobody? then w.(pc1 := Publishing({}), stateMutex := Core1) else w
    case PublishWord(at) =>
      if w.pc1.Publishing? && at < |w.state| && at < |w.transfer| then
        w.(pc1 := Publishing(w.pc1.done + {at}), transfer := w.transfer[at := w.state[at]])
      else w
    case LeavePublish =>
      if w.pc1.Publishing? && Complete(w.pc1.done, w.transfer) && w.life != [] then
        w.(pc1 := Idle1, stateMutex := Nobody, sentAt := |w.life| - 1)
      else w
  }

  function Run(w: World, actions: seq<Action>): World
    decreases |actions|
  {
    if actions == [] then w else Run(Step(w, actions[0]), actions[1..])
  }

  /** The moment core 1 is launched: every copy agrees with its original. */
  predicate Start(w: World) {
    && w.localConfig == w.config && w.transfer == w.system == w.state
    && w.configMutex.Nobody? && w.stateMutex.Nobody? && w.pc0.Idle0? && w.pc1.Idle1?
    && w.committed == [w.config] && w.life == [w.state]
    && w.localAt == 0 && w.sentAt == 0 && w.shownAt == 0
  }

  /** The words in `done` have been copied. */
  predicate Copied(to: Block, from: Block, done: set<nat>) {
    |to| == |from| && forall k :: k in done && k < |to| ==> to[k] == from[k]
  }

  ghost predicate MutexInv(w: World) {
    && (w.configMutex.Core0? <==> w.pc0.Setting?)
    && (w.configMutex.Core1? <==> w.pc1.Refreshing?)
    && (w.stateMutex.Core0? <==> w.pc0.Fetching?)
    && (w.stateMutex.Core1? <==> w.pc1.Publishing?)
  }

  ghost predicate ConfigInv(w: World) {
    && w.localAt < |w.committed|
    && |w.localConfig| == |w.config|
    && (forall k :: 0 <= k < |w.committed| ==> |w.committed[k]| == |w.config|)
    && (!w.pc0.Setting? ==> w.config == w.committed[|w.committed| - 1])
    && (!w.pc1.Refreshing? ==> w.localConfig == w.committed[w.localAt])
    && (w.pc1.Refreshing? ==> Copied(w.localConfig, w.config, w.pc1.done))
  }

  ghost predicate StateInv(w: World) {
    && w.shownAt <= w.sentAt < |w.life|
    && |w.transfer| == |w.system| == |w.state|
    && (forall k :: 0 <= k < |w.life| ==> |w.life[k]| == |w.state|)
    && w.state == w.life[|w.life| - 1]
    && (!w.pc1.Publishing? ==> w.transfer == w.life[w.sentAt])
    && (w.pc1.Publishing? ==> Copied(w.transfer, w.state, w.pc1.done))
    && (!w.pc0.Fetching? ==> w.system == w.life[w.shownAt])
    && (w.pc0.Fetching? ==> Copied(w.system, w.transfer, w.pc0.done))
  }

  ghost predicate Inv(w: World) { MutexInv(w) && ConfigInv(w) && StateInv(w) }

  lemma CompleteCopy(to: Block, from: Block, done: set<nat>)
    requires Copied(to, from, done) && Complete(done, to)
    ensures to == from
  {
  }

  lemma StepKeepsConfigInv(w: World, a: Action)
    requires MutexInv(w) && ConfigInv(w)
    ensures ConfigInv(Step(w, a)) && w.localAt <= Step(w, a).localAt
  {
    if a.LeaveRefresh? && w.pc1.Refreshing? && Complete(w.pc1.done, w.localConfig) {
      CompleteCopy(w.localConfig, w.config, w.pc1.done);
    }
  }

  lemma StepKeepsStateInv(w: World, a: Action)
    requires MutexInv(w) && StateInv(w)
    ensures StateInv(Step(w, a)) && w.shownAt <= Step(w, a).shownAt
  {
    if a.LeavePublish? && w.pc1.Publishing? && Complete(w.pc1.done, w.transfer) {
      CompleteCopy(w.transfer, w.state, w.pc1.done);
    }
    if a.LeaveFetch? && w.pc0.Fetching? && Complete(w.pc0.done, w.system) {
      CompleteCopy(w.system, w.transfer, w.pc0.done);
    }
  }

  lemma StepKeepsInv(w: World, a: Action)
    requires Inv(w)
    ensures var v := Step(w, a);
            && Inv(v) && w.localAt <= v.localAt && w.shownAt <= v.shownAt
            && w.committed <= v.committed && w.life <= v.life
  {
    StepKeepsConfigInv(w, a);
    StepKeepsStateInv(w, a);
  }

  lemma {:induction false} RunKeepsInv(w: World, actions: seq<Action>)
    requires Inv(w)
    ensures var v := Run(w, actions);
            && Inv(v) && w.localAt <= v.localAt && w.shownAt <= v.shownAt
            && w.committed <= v.committed && w.life <= v.life
    decreases |actions|
  {
    if actions != [] {
      StepKeepsInv(w, actions[0]);
      RunKeepsInv(Step(w, actions[0]), actions[1..]);
    }
  }

  lemma {:induction false} RunSplits(w: World, first: seq<Action>, second: seq<Action>)
    ensures Run(w, first + second) == Run(Run(w, first), second)
    decreases |first|
  {
    if first == [] {
      assert [] + second == second;
    } else {
      assert (first + second)[1..] == first[1..] + second;
      RunSplits(Step(w, first[0]), first[1..], second);
    }
  }

  /** Snapshot safety, over every interleaving: outside its own copy core 1 works with a configuration
      that was complete at some moment between setters, core 0 shows a state that core 1 once had as a
      whole, and as a run goes on neither ever goes back to an earlier one. */
  lemma SnapshotSafety(w: World, first: seq<Action>, second: seq<Action>)
    requires Start(w)
    ensures var u, v := Run(w, first), Run(w, first + second);
            && u.localAt < |u.committed| && u.shownAt < |u.life|
            && (!u.pc1.Refreshing? ==> u.localConfig == u.committed[u.localAt])
            && (!u.pc0.Fetching? ==> u.system == u.life[u.shownAt])
            && u.committed <= v.committed && u.life <= v.life
            && u.localAt <= v.localAt && u.shownAt <= v.shownAt
  {
    RunKeepsInv(w, first);
    RunSplits(w, first, second);
    RunKeepsInv(Run(w, first), second);
  }

  /** A finished refresh has the newest complete configuration, and a finished fetch the state sent
      last. */
  lemma FinishedCopiesAreCurrent(w: World, actions: seq<Action>)
    requires Start(w)
    ensures var u := Run(w, actions);
            var v := Step(u, LeaveRefresh);
            u.pc1.Refreshing? && !v.pc1.Refreshing? ==>
              && v.localConfig == v.config && !v.pc0.Setting?
              && v.config == v.committed[|v.committed| - 1] && v.localAt == |v.committed| - 1
    ensures var u := Run(w, actions);
            var v := Step(u, LeaveFetch);
            u.pc0.Fetching? && !v.pc0.Fetching? ==>
              && v.system == v.transfer && !v.pc1.Publishing? && v.shownAt == v.sentAt
              && v.sentAt < |v.life| && v.transfer == v.life[v.sentAt]
  {
    RunKeepsInv(w, actions);
    var u := Run(w, actions);
    StepKeepsInv(u, LeaveRefresh);
    StepKeepsInv(u, LeaveFetch);
    if u.pc1.Refreshing? && Complete(u.pc1.done, u.localConfig) {
      CompleteCopy(u.localConfig, u.config, u.pc1.done);
    }
    if u.pc0.Fetching? && Complete(u.pc0.done, u.system) {
      CompleteCopy(u.system, u.transfer, u.pc0.done);
    }
  }

  // --------------------------------------------------------------------------------------------
  // Progress

  lemma RunBracket(w: World, a: Action, body: seq<Action>, b: Action)
    ensures Run(w, [a] + body + [b]) == Step(Run(Step(w, a), body), b)
  {
    assert [a] + body + [b] == [a] + (body + [b]);
    assert ([a] + (body + [b]))[1..] == body + [b];
    RunSplits(Step(w, a), body, [b]);
    assert [b][1..] == [];
    assert Run(Run(Step(w, a), body), [b]) == Run(Step(Run(Step(w, a), body), b), []);
  }

  lemma RefreshStep(w: World, a: Action)
    requires Inv(w) && w.pc1.Refreshing? && a != LeaveRefresh
    ensures var v := Step(w, a);
            && Inv(v) && v.pc1.Refreshing? && v.config == w.config && v.committed == w.committed && w.pc1.done <= v.pc1.done
            && (a.RefreshWord? && a.at < |w.config| ==> a.at in v.pc1.done)
  {
    StepKeepsInv(w, a);
  }

  /** While core 1 copies the configuration it stays as it is, and a word asked for is copied. */
  lemma {:induction false} RefreshGoesOn(w: World, body: seq<Action>)
    requires Inv(w) && w.pc1.Refreshing? && LeaveRefresh !in body
    ensures var v := Run(w, body);
            Inv(v) && v.pc1.Refreshing? && v.config == w.config && v.committed == w.committed && w.pc1.done <= v.pc1.done
    decreases |body|
  {
    if body != [] {
      assert body[0] in body;
      RefreshStep(w, body[0]);
      RefreshGoesOn(Step(w, body[0]), body[1..]);
    }
  }

  lemma {:induction false} RefreshCopies(w: World, body: seq<Action>, k: nat)
    requires Inv(w) && w.pc1.Refreshing? && LeaveRefresh !in body && RefreshWord(k) in body && k < |w.config|
    ensures Run(w, body).pc1.Refreshing? && k in Run(w, body).pc1.done
    decreases |body|
  {
    assert body[0] in body;
    RefreshStep(w, body[0]);
    RefreshGoesOn(Step(w, body[0]), body[1..]);
    if body[0] != RefreshWord(k) {
      RefreshCopies(Step(w, body[0]), body[1..], k);
    }
  }

  /** From every state reachable from the launch with core 1 idle and the mutex free: a copy of every
      word, in any order and with any steps of core 0 in between, leaves core 1 with the configuration
      of the moment at which it took the mutex. */
  lemma RefreshArrives(w: World, first: seq<Action>, body: seq<Action>)
    requires Start(w) && Run(w, first).pc1.Idle1? && Run(w, first).configMutex.Nobody?
    requires LeaveRefresh !in body && forall k: nat :: k < |Run(w, first).config| ==> RefreshWord(k) in body
    ensures var u := Run(w, first);
            var v := Run(u, [EnterRefresh] + body + [LeaveRefresh]);
            v.pc1.Idle1? && v.localConfig == u.config && v.localAt == |u.committed| - 1
  {
    RunKeepsInv(w, first);
    var u := Run(w, first);
    var e := Step(u, EnterRefresh);
    StepKeepsInv(u, EnterRefresh);
    RefreshGoesOn(e, body);
    RunBracket(u, EnterRefresh, body, LeaveRefresh);
    var x := Run(e, body);
    forall k: nat | k < |x.localConfig| ensures k in x.pc1.done {
      RefreshCopies(e, body, k);
    }
    CompleteCopy(x.localConfig, x.config, x.pc1.done);
  }

  lemma PublishStep(w: World, a: Action)
    requires Inv(w) && w.pc1.Publishing? && a != LeavePublish
    ensures var v := Step(w, a);
            && Inv(v) && v.pc1.Publishing? && v.state == w.state && v.life == w.life && w.pc1.done <= v.pc1.done
            && (a.PublishWord? && a.at < |w.state| ==> a.at in v.pc1.done)
  {
    StepKeepsInv(w, a);
  }

  /** While core 1 publishes its state stays as it is, and a word asked for is copied. */
  lemma {:induction false} PublishGoesOn(w: World, body: seq<Action>)
    requires Inv(w) && w.pc1.Publishing? && LeavePublish !in body
    ensures var v := Run(w, body);
            Inv(v) && v.pc1.Publishing? && v.state == w.state && v.life == w.life && w.pc1.done <= v.pc1.done
    decreases |body|
  {
    if body != [] {
      assert body[0] in body;
      PublishStep(w, body[0]);
      PublishGoesOn(Step(w, body[0]), body[1..]);
    }
  }

  lemma {:induction false} PublishCopies(w: World, body: seq<Action>, k: nat)
    requires Inv(w) && w.pc1.Publishing? && LeavePublish !in body && PublishWord(k) in body && k < |w.state|
    ensures Run(w, body).pc1.Publishing? && k in Run(w, body).pc1.done
    decreases |body|
  {
    assert body[0] in body;
    PublishStep(w, body[0]);
    PublishGoesOn(Step(w, body[0]), body[1..]);
    if body[0] != PublishWord(k) {
      PublishCopies(Step(w, body[0]), body[1..], k);
    }
  }

  lemma PublishArrives(u: World, body: seq<Action>)
    requires Inv(u) && u.pc1.Idle1? && u.stateMutex.Nobody?
    requires LeavePublish !in body && forall k: nat :: k < |u.state| ==> PublishWord(k) in body
    ensures var v := Run(u, [EnterPublish] + body + [LeavePublish]);
            Inv(v) && v.pc1.Idle1? && v.stateMutex.Nobody? && v.transfer == u.state && v.sentAt == |u.life| - 1
  {
    var e := Step(u, EnterPublish);
    StepKeepsInv(u, EnterPublish);
    PublishGoesOn(e, body);
    RunBracket(u, EnterPublish, body, LeavePublish);
    var x := Run(e, body);
    forall k: nat | k < |x.transfer| ensures k in x.pc1.done {
      PublishCopies(e, body, k);
    }
    CompleteCopy(x.transfer, x.state, x.pc1.done);
    StepKeepsInv(x, LeavePublish);
  }

  lemma FetchStep(w: World, a: Action)
    requires Inv(w) && w.pc0.Fetching? && a != LeaveFetch
    ensures var v := Step(w, a);
            && Inv(v) && v.pc0.Fetching? && v.transfer == w.transfer && v.sentAt == w.sentAt && w.pc0.done <= v.pc0.done
            && (a.FetchWord? && a.at < |w.transfer| ==> a.at in v.pc0.done)
  {
    StepKeepsInv(w, a);
  }

  /** While core 0 fetches, what was sent stays as it is, and a word asked for is copied. */
  lemma {:induction false} FetchGoesOn(w: World, body: seq<Action>)
    requires Inv(w) && w.pc0.Fetching? && LeaveFetch !in body
    ensures var v := Run(w, body);
            Inv(v) && v.pc0.Fetching? && v.transfer == w.transfer && v.sentAt == w.sentAt && w.pc0.done <= v.pc0.done
    decreases |body|
  {
    if body != [] {
      assert body[0] in body;
      FetchStep(w, body[0]);
      FetchGoesOn(Step(w, body[0]), body[1..]);
    }
  }

  lemma {:induction false} FetchCopies(w: World, body: seq<Action>, k: nat)
    requires Inv(w) && w.pc0.Fetching? && LeaveFetch !in body && FetchWord(k) in body && k < |w.transfer|
    ensures Run(w, body).pc0.Fetching? && k in Run(w, body).pc0.done
    decreases |body|
  {
    assert body[0] in body;
    FetchStep(w, body[0]);
    FetchGoesOn(Step(w, body[0]), body[1..]);
    if body[0] != FetchWord(k) {
      FetchCopies(Step(w, body[0]), body[1..], k);
    }
  }

  lemma FetchArrives(u: World, body: seq<Action>)
    requires Inv(u) && u.pc0.Idle0? && u.stateMutex.Nobody?
    requires LeaveFetch !in body && forall k: nat :: k < |u.transfer| ==> FetchWord(k) in body
    ensures var v := Run(u, [EnterFetch] + body + [LeaveFetch]);
            v.pc0.Idle0? && v.system == u.transfer && v.shownAt == u.sentAt
  {
    var e := Step(u, EnterFetch);
    StepKeepsInv(u, EnterFetch);
    FetchGoesOn(e, body);
    RunBracket(u, EnterFetch, body, LeaveFetch);
    var x := Run(e, body);
    forall k: nat | k < |x.system| ensures k in x.pc0.done {
      FetchCopies(e, body, k);
    }
    CompleteCopy(x.system, x.transfer, x.pc0.done);
  }

  /** From every reachable state with core 1 idle and the mutex free: a publish of every word, and later,
      with core 0 idle, a fetch of every word, with any other steps in between, leave core 0 with the
      state that core 1 had when it took the mutex for the publish. */
  lemma PublishedStateArrives(w: World, first: seq<Action>, publish: seq<Action>, fetch: seq<Action>)
    requires Start(w) && Run(w, first).pc1.Idle1? && Run(w, first).stateMutex.Nobody?
    requires LeavePublish !in publish && forall k: nat :: k < |Run(w, first).state| ==> PublishWord(k) in publish
    requires LeaveFetch !in fetch && forall k: nat :: k < |Run(w, first).state| ==> FetchWord(k) in fetch
    requires Run(Run(w, first), [EnterPublish] + publish + [LeavePublish]).pc0.Idle0?
    ensures var u := Run(w, first);
            var v := Run(u, [EnterPublish] + publish + [LeavePublish]);
            var x := Run(v, [EnterFetch] + fetch + [LeaveFetch]);
            x.pc0.Idle0? && x.system == u.state
  {
    RunKeepsInv(w, first);
    PublishArrives(Run(w, first), publish);
    FetchArrives(Run(Run(w, first), [EnterPublish] + publish + [LeavePublish]), fetch);
  }

  /** The configuration after some writes. */
  function Written(b: Block, body: seq<Action>): Block
    decreases |body|
  {
    if body == [] then b
    else
      var a := body[0];
      Written(if a.WriteConfig? && a.at < |b| then b[a.at := a.word] else b, body[1..])
  }

  lemma {:induction false} SetterGoesOn(w: World, body: seq<Action>)
    requires Inv(w) && w.pc0.Setting? && LeaveSetter !in body
    ensures var v := Run(w, body);
            Inv(v) && v.pc0.Setting? && v.config == Written(w.config, body) && v.committed == w.committed
    decreases |body|
  {
    if body != [] {
      StepKeepsInv(w, body[0]);
      assert body[0] in body;
      SetterGoesOn(Step(w, body[0]), body[1..]);
    }
  }

  /** A setter writes what it writes, whatever core 1 does meanwhile, and the result is the newest
      complete configuration. */
  lemma SetterArrives(w: World, first: seq<Action>, body: seq<Action>)
    requires Start(w) && Run(w, first).pc0.Idle0? && Run(w, first).configMutex.Nobody? && LeaveSetter !in body
    ensures var u := Run(w, first);
            var v := Run(u, [EnterSetter] + body + [LeaveSetter]);
            && v.pc0.Idle0? && v.configMutex.Nobody? && v.config == Written(u.config, body)
            && v.committed == u.committed + [v.config]
  {
    RunKeepsInv(w, first);
    var u := Run(w, first);
    StepKeepsInv(u, EnterSetter);
    SetterGoesOn(Step(u, EnterSetter), body);
    RunBracket(u, EnterSetter, body, LeaveSetter);
  }

  /** Core 1's own work changes its state, when it is not copying. */
  lemma WorkArrives(w: World, at: nat, word: Word)
    requires w.pc1.Idle1? && at < |w.state|
    ensures Step(w, Work(at, word)).state == w.state[at := word]
    ensures Step(w, Work(at, word)).life == w.life + [w.state[at := word]]
  {
  }

  /** The protocol with no look at the configuration mutex. */
  function UnguardedStep(w: World, a: Action): World {
    match a
    case EnterSetter => if w.pc0.Idle0? then w.(pc0 := Setting) else w
    case EnterRefresh => if w.pc1.Idle1? then w.(pc1 := Refreshing({})) else w
    case _ => Step(w, a)
  }

  function UnguardedRun(w: World, actions: seq<Action>): World
    decreases |actions|
  {
    if actions == [] then w else UnguardedRun(UnguardedStep(w, actions[0]), actions[1..])
  }

  lemma UnguardedFirst(w: World, a: Action, rest: seq<Action>)
    ensures UnguardedRun(w, [a] + rest) == UnguardedRun(UnguardedStep(w, a), rest)
  {
    assert ([a] + rest)[1..] == rest;
  }

  /** Core 1 copies both words between the two writes of a setter. */
  const TEARING: seq<Action> :=
    [EnterSetter] + ([WriteConfig(0, 2)] + ([EnterRefresh] + ([RefreshWord(0)] + ([RefreshWord(1)] + ([LeaveRefresh]
    + ([WriteConfig(1, 2)] + ([LeaveSetter] + [])))))))

  /** The mutex is what makes this work: without it a run from the launch of core 1 ends with both cores
      idle and core 1 holding a configuration that was never complete. */
  lemma WithoutMutexCopiesTear()
    ensures exists w: World ::
              && Start(w)
              && UnguardedRun(w, TEARING).pc0.Idle0? && UnguardedRun(w, TEARING).pc1.Idle1?
              && UnguardedRun(w, TEARING).localConfig !in UnguardedRun(w, TEARING).committed
  {
    var w := World([1, 1], [1, 1], [], [], [], Nobody, Nobody, Idle0, Idle1, [[1, 1]], [[]], 0, 0, 0);
    var v := Torn(w);
    assert v.localConfig[0] != v.localConfig[1];
    assert forall b :: b in v.committed ==> b[0] == b[1];
    assert Start(w);
  }

  lemma Torn(w: World) returns (v: World)
    requires w == World([1, 1], [1, 1], [], [], [], Nobody, Nobody, Idle0, Idle1, [[1, 1]], [[]], 0, 0, 0)
    ensures v == UnguardedRun(w, TEARING) && v.pc0.Idle0? && v.pc1.Idle1?
    ensures v.localConfig == [2, 1] && v.committed == [[1, 1], [2, 2]]
  {
    var end: seq<Action> := [WriteConfig(1, 2)] + ([LeaveSetter] + []);
    var copy := [EnterRefresh] + ([RefreshWord(0)] + ([RefreshWord(1)] + ([LeaveRefresh] + end)));
    UnguardedFirst(w, EnterSetter, [WriteConfig(0, 2)] + copy);
    var w1 := UnguardedStep(w, EnterSetter);
    UnguardedFirst(w1, WriteConfig(0, 2), copy);
    var w2 := UnguardedStep(w1, WriteConfig(0, 2));
    var w3 := TornCopy(w2, end);
    UnguardedFirst(w3, WriteConfig(1, 2), [LeaveSetter] + []);
    var w4 := UnguardedStep(w3, WriteConfig(1, 2));
    UnguardedFirst(w4, LeaveSetter, []);
    v := UnguardedStep(w4, LeaveSetter);
    assert w4.config == [2, 2];
    assert UnguardedRun(v, []) == v;
    assert v.committed == [[1, 1], [2, 2]];
    assert TEARING == [EnterSetter] + ([WriteConfig(0, 2)] + copy);
  }

  lemma TornCopy(w: World, end: seq<Action>) returns (v: World)
    requires w.config == [2, 1] && w.localConfig == [1, 1] && w.pc1.Idle1? && w.committed == [[1, 1]] && w.pc0.Setting?
    ensures UnguardedRun(w, [EnterRefresh] + ([RefreshWord(0)] + ([RefreshWord(1)] + ([LeaveRefresh] + end)))) ==
              UnguardedRun(v, end)
    ensures v == w.(localConfig := [2, 1], configMutex := Nobody, localAt := 0)
  {
    UnguardedFirst(w, EnterRefresh, [RefreshWord(0)] + ([RefreshWord(1)] + ([LeaveRefresh] + end)));
    var w1 := UnguardedStep(w, EnterRefresh);
    UnguardedFirst(w1, RefreshWord(0), [RefreshWord(1)] + ([LeaveRefresh] + end));
    var w2 := UnguardedStep(w1, RefreshWord(0));
    UnguardedFirst(w2, RefreshWord(1), [LeaveRefresh] + end);
    var w3 := UnguardedStep(w2, RefreshWord(1));
    UnguardedFirst(w3, LeaveRefresh, end);
    v := UnguardedStep(w3, LeaveRefresh);
    assert w3.pc1.done == {0, 1};
    assert w3.localConfig == [2, 1];
  }
}
