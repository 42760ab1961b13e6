/** The module's handlers are runs of the journal system. */
module JournalHandling {
  import opened Common
  import opened D = Durable
  import opened J = Journal
  import opened JournalRuns
  import Open = JournalOpen

  /** The steps of handling one delivered lease; a step that is not enabled does nothing. */
  function Steps(l: Lease, ran: Option<Finding>, prepares: Outcome, completes: Outcome, sends: bool): seq<Step> {
    var x := ResultOf(ran);
    [Start(l, prepares), Execute(Task(l, Prepared), x), Finish(Task(l, Ran(x)), completes)]
    + if sends then [Publish(Task(l, Recorded(x)))] else []
  }

  function ExecutedIn(events: seq<Event>): set<Lease> {
    set i | 0 <= i < |events| && events[i].Executed? :: events[i].lease
  }

  function PublishedIn(events: seq<Event>): set<(Key, Finding)> {
    set i | 0 <= i < |events| && events[i].Published? :: (events[i].key, events[i].result)
  }

  /** Whatever Handle does to records, directory and the world outside is a Start, Execute, Finish,
      Publish sequence of the run theorems; what stays in progress is at most an unsent result. */
  lemma HandleIsRun(s: System, l: Lease, ran: Option<Finding>, prepares: Outcome, completes: Outcome, sends: bool)
    requires s.records.Some? && forall t :: t in s.tasks ==> t.lease != l
    ensures var h := Handle(State(s.records.value, s.disk), false, l, ran, prepares, completes, sends);
            var s' := RunOf(s, Steps(l, ran, prepares, completes, sends));
            && s'.records == Some(h.state.records) && s'.disk == h.state.disk
            && s'.executed == s.executed + ExecutedIn(h.events) && s'.published == s.published + PublishedIn(h.events)
            && s.tasks <= s'.tasks <= s.tasks + {Task(l, Recorded(ResultOf(ran)))}
  {
    hide RunOf, Steps, ExecutedIn, PublishedIn;
    var x := ResultOf(ran);
    EventSets(l, x);
    var h := Handle(State(s.records.value, s.disk), false, l, ran, prepares, completes, sends);
    var s1 := Next(s, Start(l, prepares));
    var s2 := Next(s1, Execute(Task(l, Prepared), x));
    var s3 := Next(s2, Finish(Task(l, Ran(x)), completes));
    var s4 := if sends then Next(s3, Publish(Task(l, Recorded(x)))) else s3;
    Stepwise(s, l, ran, prepares, completes, sends);
    var (p, after) := Prepare(State(s.records.value, s.disk), l.Key(), l.digest, l.target, prepares);
    if p.Err? {
      assert s1.tasks == s.tasks && s2 == s1 && s3 == s1 && s4 == s1;
    } else {
      assert s1.tasks == s.tasks + {Task(l, Prepared)};
      assert s2.tasks == s.tasks + {Task(l, Ran(x))} && s2.executed == s.executed + {l};
      assert State(s2.records.value, s2.disk) == after;
      var (c, done) := Complete(after, l.Key(), x, completes);
      assert s3.tasks == s.tasks + if c.Ok? then {Task(l, Recorded(x))} else {};
      if c.Ok? && sends {
        assert h.events == [Executed(l), Published(l.Key(), x)];
        assert s4.tasks == s.tasks;
      } else {
        assert h.events == [Executed(l)];
        assert s4 == s3;
      }
    }
  }

  lemma EventSets(l: Lease, x: Finding)
    ensures ExecutedIn([]) == {} && PublishedIn([]) == {}
    ensures ExecutedIn([Executed(l)]) == {l} && PublishedIn([Executed(l)]) == {}
    ensures ExecutedIn([Executed(l), Published(l.Key(), x)]) == {l}
    ensures PublishedIn([Executed(l), Published(l.Key(), x)]) == {(l.Key(), x)}
  {
    var one, two := [Executed(l)], [Executed(l), Published(l.Key(), x)];
    assert one[0] == Executed(l) && two[0] == Executed(l) && two[1] == Published(l.Key(), x);
  }

  lemma Stepwise(s: System, l: Lease, ran: Option<Finding>, prepares: Outcome, completes: Outcome, sends: bool)
    ensures var x := ResultOf(ran);
            var s3 := Next(Next(Next(s, Start(l, prepares)), Execute(Task(l, Prepared), x)),
                           Finish(Task(l, Ran(x)), completes));
            RunOf(s, Steps(l, ran, prepares, completes, sends)) == if sends
                then Next(s3, Publish(Task(l, Recorded(x)))) else s3
  {
    hide Next;
    var x := ResultOf(ran);
    var a, b, c, d := Start(l, prepares), Execute(Task(l, Prepared), x), Finish(Task(l, Ran(x)), completes),
        Publish(Task(l, Recorded(x)));
    if sends {
      assert Steps(l, ran, prepares, completes, sends) == [a, b, c, d];
      Open.Four(s, a, b, c, d);
    } else {
      assert Steps(l, ran, prepares, completes, sends) == [a, b] + [c];
      Open.RunAppend(s, [a, b], [c]);
      Open.Two(s, a, b);
      Open.One(Next(Next(s, a), b), c);
    }
  }
}
