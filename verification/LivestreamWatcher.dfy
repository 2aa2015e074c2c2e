/** The poll, diff and reap cycle of the livestream watcher beside recording tasks that finish at
    any time. */
module LivestreamWatcher {

  datatype Creator = Creator(id: int)

  /** A recording task, named by its creator and the poll that spawned it. */
  datatype Task = Task(creator: Creator, born: nat)

  /** `active` maps a creator to the poll that spawned its recorder; `stopped` are the tasks whose
      stop event is set. */
  datatype State = State(polls: nat, active: map<Creator, nat>, spawned: set<Task>, done: set<Task>, stopped: set<Task>)

  const INIT: State := State(0, map[], {}, {}, {})

  /** The streaming payload of one account. */
  datatype Streaming = Offline | Malformed | NoChannel | Channel(status: int)

  datatype Account = Account(creator: Creator, streaming: Streaming, inScope: bool)

  /** Failed covers a disabled recorder, a request error and an unexpected payload. */
  datatype Response = Failed | Accounts(accounts: seq<Account>)

  const LIVE_STATUS: int := 2

  predicate IsLive(a: Account) { a.streaming.Channel? && a.streaming.status == LIVE_STATUS && a.inScope }

  function Live(accounts: seq<Account>): set<Creator> {
    set a | a in accounts && IsLive(a) :: a.creator
  }

  function Entry(s: State, creator: Creator): Task
    requires creator in s.active
  {
    Task(creator, s.active[creator])
  }

  /** A creator whose recorder is in the active map and still running. */
  predicate Recording(s: State, creator: Creator) {
    creator in s.active && Entry(s, creator) !in s.done
  }

  /** The entries and the tasks of creators whose recorders start at one poll. */
  function Entries(creators: set<Creator>, born: nat): map<Creator, nat> { map c | c in creators :: born }

  function Tasks(creators: set<Creator>, born: nat): set<Task> { set c | c in creators :: Task(c, born) }

  /** One successful poll: spawn for new creators, signal those that dropped out, reap the finished. */
  function Polled(s: State, live: set<Creator>): State {
    var joined := map c | c in s.active.Keys + live :: if c in s.active then s.active[c] else s.polls;
    State(
      s.polls + 1,
      map c | c in joined && Task(c, joined[c]) !in s.done :: joined[c],
      s.spawned + Tasks(live - s.active.Keys, s.polls),
      s.done,
      s.stopped + set c | c in s.active.Keys - live :: Task(c, s.active[c]))
  }

  function AllStopped(s: State): State {
    s.(stopped := s.stopped + set c | c in s.active :: Entry(s, c))
  }

  datatype Event = Poll(response: Response) | Finish(task: Task) | StopAll

  predicate Enabled(s: State, e: Event) { e.Finish? ==> e.task in s.spawned }

  function Step(s: State, e: Event): State {
    match e
    case Poll(Failed) => s
    case Poll(Accounts(accounts)) => Polled(s, Live(accounts))
    case Finish(task) => s.(done := s.done + {task})
    case StopAll => AllStopped(s)
  }

  ghost predicate Executes(s: State, es: seq<Event>, t: State)
    decreases |es|
  {
    if es == [] then s == t else Enabled(s, es[0]) && Executes(Step(s, es[0]), es[1..], t)
  }

  // ----- invariant -----

  ghost predicate Inv(s: State) {
    && s.done <= s.spawned && s.stopped <= s.spawned
    && (forall t | t in s.spawned :: t.born < s.polls)
    && (forall c | c in s.active :: Entry(s, c) in s.spawned)
    && (forall t | t in s.spawned && t !in s.done :: t.creator in s.active && s.active[t.creator] == t.born)
  }

  lemma {:induction false} PolledKeeps(s: State, live: set<Creator>)
    requires Inv(s)
    ensures Inv(Polled(s, live))
  {
    var u := Polled(s, live);
    forall t | t in u.spawned && t !in u.done
      ensures t.creator in u.active && u.active[t.creator] == t.born
    {
      if t !in s.spawned { assert t.creator in live - s.active.Keys && t.born == s.polls; }
    }
    forall t | t in u.stopped
      ensures t in u.spawned
    {
      if t !in s.stopped { assert t == Entry(s, t.creator); }
    }
    forall c | c in u.active
      ensures Entry(u, c) in u.spawned
    {
      if c in s.active { assert Entry(s, c) in s.spawned; }
    }
  }

  lemma {:induction false} StepKeeps(s: State, e: Event)
    requires Inv(s) && Enabled(s, e)
    ensures Inv(Step(s, e))
  {
    match e
    case Poll(Failed) =>
    case Poll(Accounts(accounts)) => PolledKeeps(s, Live(accounts));
    case Finish(_) =>
    case StopAll =>
      forall t | t in AllStopped(s).stopped
        ensures t in s.spawned
      {
        if t !in s.stopped { assert t == Entry(s, t.creator); }
      }
  }

  /** Over any polls and completions a creator never has two unfinished recorders, and an unfinished
      one is the entry of the active map. */
  lemma {:induction false} AtMostOneRecorder(s: State, es: seq<Event>, t: State, a: Task, b: Task)
    requires Inv(s) && Executes(s, es, t)
    ensures Inv(t)
    ensures a in t.spawned && a !in t.done ==> Recording(t, a.creator) && Entry(t, a.creator) == a
    ensures a in t.spawned && b in t.spawned && a !in t.done && b !in t.done && a.creator == b.creator ==> a == b
    decreases |es|
  {
    if es != [] {
      StepKeeps(s, es[0]);
      AtMostOneRecorder(Step(s, es[0]), es[1..], t, a, b);
    }
  }

  lemma {:induction false} InitHolds()
    ensures Inv(INIT)
  {
  }

  /** An entry leaves the active map only when its task is done; a poll sets the stop event of
      exactly the active creators it misses, a shutdown that of every active one and a failed poll or
      a completion none; stop events are never cleared. */
  lemma {:induction false} StepRespectsEntries(s: State, e: Event, creator: Creator)
    requires Inv(s) && Enabled(s, e) && creator in s.active
    ensures var t := Step(s, e);
            && (creator !in t.active || t.active[creator] != s.active[creator] ==> Entry(s, creator) in s.done)
            && s.stopped <= t.stopped
            && (e.Poll? && e.response.Accounts? && Entry(s, creator) !in s.stopped ==>
                  (Entry(s, creator) in t.stopped <==> creator !in Live(e.response.accounts)))
            && (e.StopAll? ==> Entry(s, creator) in t.stopped && t == s.(stopped := t.stopped))
            && (e.Finish? || (e.Poll? && e.response.Failed?) ==> t.stopped == s.stopped && t.active == s.active)
  {
  }

  /** A poll leaves a live creator without a running recorder exactly when its previous one has
      finished and still waits to be reaped; then its entry is gone. */
  lemma {:induction false} LiveCreatorAfterPoll(s: State, live: set<Creator>, creator: Creator)
    requires Inv(s) && creator in live
    ensures Recording(Polled(s, live), creator) <==> !(creator in s.active && Entry(s, creator) in s.done)
    ensures creator in s.active && Entry(s, creator) in s.done ==> creator !in Polled(s, live).active
    ensures creator !in s.active ==> Entry(Polled(s, live), creator) == Task(creator, s.polls)
  {
    assert Task(creator, s.polls) !in s.spawned;
  }

  ghost predicate NoSuccessfulPoll(es: seq<Event>) {
    forall i | 0 <= i < |es| :: es[i].Poll? ==> es[i].response.Failed?
  }

  lemma {:induction false} BetweenPolls(s: State, es: seq<Event>, t: State)
    requires Inv(s) && Executes(s, es, t) && NoSuccessfulPoll(es)
    ensures Inv(t) && t.active == s.active && t.polls == s.polls && t.spawned == s.spawned
    decreases |es|
  {
    if es != [] {
      assert NoSuccessfulPoll([es[0]]) by { assert es[0].Poll? ==> es[0].response.Failed?; }
      StepKeeps(s, es[0]);
      assert forall i | 0 <= i < |es[1..]| :: es[1..][i] == es[i + 1];
      BetweenPolls(Step(s, es[0]), es[1..], t);
    }
  }

  /** A creator live on two successive polls whose recorder ended before the first has a new,
      running recorder after the second, whatever finishes or fails in between. */
  lemma {:induction false} RecorderReplacedByNextPoll(
    s: State, first: set<Creator>, es: seq<Event>, t: State, second: set<Creator>, creator: Creator)
    requires Inv(s) && creator in s.active && Entry(s, creator) in s.done
    requires creator in first && creator in second
    requires Executes(Polled(s, first), es, t) && NoSuccessfulPoll(es)
    ensures var u := Polled(t, second);
            && Recording(u, creator)
            && Entry(u, creator) == Task(creator, s.polls + 1)
            && Entry(u, creator) != Entry(s, creator)
  {
    PolledKeeps(s, first);
    LiveCreatorAfterPoll(s, first, creator);
    BetweenPolls(Polled(s, first), es, t);
    LiveCreatorAfterPoll(t, second, creator);
  }

  // ----- the source's loops -----

  /** The live creators are those of an account in scope that streams on a channel of status 2. */
  method LiveCreators(accounts: seq<Account>) returns (live: set<Creator>)
    ensures live == Live(accounts)
    ensures forall c :: c in live <==>
              exists i :: 0 <= i < |accounts| && accounts[i].creator == c
                          && accounts[i].streaming == Channel(2) && accounts[i].inScope
  {
    live := {};
    for i := 0 to |accounts|
      invariant live == Live(accounts[..i])
    {
      var a := accounts[i];
      assert accounts[..i + 1] == accounts[..i] + [a];
      assert forall x | x in accounts[..i + 1] :: x in accounts[..i] || x == a;
      if a.streaming.Offline? || a.streaming.Malformed? {
        continue;
      }
      if a.streaming.NoChannel? || a.streaming.status != LIVE_STATUS {
        continue;
      }
      if !a.inScope {
        continue;
      }
      assert a in accounts[..i + 1];
      live := live + {a.creator};
    }
    assert accounts[..|accounts|] == accounts;
    forall c
      ensures c in live <==>
              exists i :: 0 <= i < |accounts| && accounts[i].creator == c
                          && accounts[i].streaming == Channel(2) && accounts[i].inScope
    {
      LiveIff(accounts, c);
    }
  }

  lemma {:induction false} LiveIff(accounts: seq<Account>, c: Creator)
    ensures c in Live(accounts) <==>
            exists i :: 0 <= i < |accounts| && accounts[i].creator == c
                        && accounts[i].streaming == Channel(2) && accounts[i].inScope
  {
    if i :| 0 <= i < |accounts| && accounts[i].creator == c
            && accounts[i].streaming == Channel(2) && accounts[i].inScope {
      assert accounts[i] in accounts && IsLive(accounts[i]);
    }
  }

  lemma {:induction false} NoEntries(born: nat, m: map<Creator, nat>)
    ensures m + Entries({}, born) == m && Tasks({}, born) == {}
  {
  }

  lemma {:induction false} OneMore(creators: set<Creator>, c: Creator, born: nat, m: map<Creator, nat>)
    ensures m + Entries(creators + {c}, born) == (m + Entries(creators, born))[c := born]
    ensures Tasks(creators + {c}, born) == Tasks(creators, born) + {Task(c, born)}
  {
  }

  method Pick(creators: set<Creator>) returns (c: Creator)
    requires creators != {}
    ensures c in creators
  {
    c :| c in creators;
  }

  lemma {:induction false} PolledByParts(s: State, live: set<Creator>, active: map<Creator, nat>)
    requires var joined := s.active + Entries(live - s.active.Keys, s.polls);
             active == map c | c in joined && Task(c, joined[c]) !in s.done :: joined[c]
    ensures Polled(s, live) ==
            State(s.polls + 1, active,
                  s.spawned + Tasks(live - s.active.Keys, s.polls),
                  s.done,
                  s.stopped + set c | c in s.active.Keys - live :: Task(c, s.active[c]))
  {
    var joined := s.active + Entries(live - s.active.Keys, s.polls);
    assert joined == map c | c in s.active.Keys + live :: if c in s.active then s.active[c] else s.polls;
  }

  class Watcher {
    var polls: nat
    var activeRecordings: map<Creator, nat>
    var spawned: set<Task>
    var done: set<Task>
    var stopped: set<Task>

    ghost function View(): State
      reads this
    {
      State(polls, activeRecordings, spawned, done, stopped)
    }

    constructor ()
      ensures View() == INIT
    {
      polls, activeRecordings, spawned, done, stopped := 0, map[], {}, {}, {};
    }

    method PollAndDiff(response: Response)
      requires Inv(View())
      modifies this
      ensures View() == Step(old(View()), Poll(response)) && Inv(View())
    {
      hide Polled, Live, Inv;
      StepKeeps(View(), Poll(response));
      if response.Failed? {
        return;
      }
      var live := LiveCreators(response.accounts);
      var before := activeRecordings;
      SpawnFor(live - before.Keys);
      SignalStop(before.Keys - live);
      Reap();
      PolledByParts(old(View()), live, activeRecordings);
      polls := polls + 1;
    }

    method SpawnFor(creators: set<Creator>)
      requires creators !! activeRecordings.Keys
      modifies this`activeRecordings, this`spawned
      ensures activeRecordings == old(activeRecordings) + Entries(creators, polls)
      ensures spawned == old(spawned) + Tasks(creators, polls)
    {
      hide Entries, Tasks;
      NoEntries(polls, activeRecordings);
      var left := creators;
      assert creators - left == {};
      while left != {}
        invariant left <= creators
        invariant activeRecordings == old(activeRecordings) + Entries(creators - left, polls)
        invariant spawned == old(spawned) + Tasks(creators - left, polls)
        decreases |left|
      {
        var c := Pick(left);
        assert creators - (left - {c}) == (creators - left) + {c};
        OneMore(creators - left, c, polls, old(activeRecordings));
        spawned := spawned + {Task(c, polls)};
        activeRecordings := activeRecordings[c := polls];
        left := left - {c};
      }
      assert creators - left == creators;
    }

    method SignalStop(creators: set<Creator>)
      requires creators <= activeRecordings.Keys
      modifies this`stopped
      ensures stopped == old(stopped) + set c | c in creators :: Task(c, activeRecordings[c])
    {
      var left := creators;
      while left != {}
        invariant left <= creators
        invariant stopped == old(stopped) + set c | c in creators - left :: Task(c, activeRecordings[c])
        decreases |left|
      {
        var c := Pick(left);
        assert creators - (left - {c}) == (creators - left) + {c};
        stopped := stopped + {Task(c, activeRecordings[c])};
        left := left - {c};
      }
    }

    method Reap()
      modifies this`activeRecordings
      ensures activeRecordings ==
              map c | c in old(activeRecordings) && Task(c, old(activeRecordings)[c]) !in done ::
                     old(activeRecordings)[c]
    {
      var finished := set c | c in activeRecordings && Task(c, activeRecordings[c]) in done;
      activeRecordings := activeRecordings - finished;
    }

    method StopAllRecordings()
      requires Inv(View())
      modifies this`stopped
      ensures View() == AllStopped(old(View()))
      ensures forall c | c in activeRecordings :: Task(c, activeRecordings[c]) in stopped
    {
      SignalStop(activeRecordings.Keys);
      assert stopped == old(stopped) + set c | c in activeRecordings :: Task(c, activeRecordings[c]);
    }
  }
}
