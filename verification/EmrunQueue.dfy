/** The message resequencer of emrun.py (class HTTPWebServer): messages numbered by the page
    arrive in any order, and a bounded queue puts them back in order for the log. */
module EmrunQueue {
  import opened Sorting

  datatype Message = Message(seqNum: int, text: string, toStderr: bool)

  // How a message came to be logged: it had no number, its number had already been passed, or
  // its number was the expected one.
  datatype How = Unnumbered | Late | Due

  datatype Logged = Logged(msg: Message, how: How)

  const LIMIT := 16

  predicate BySeqNum(a: Message, b: Message) {
    a.seqNum <= b.seqNum
  }

  // The two fields of the server, and what it has logged so far
  datatype State = State(expected: int, queue: seq<Message>, log: seq<Logged>) {
    function Log(m: Message, how: How): State {
      this.(log := log + [Logged(m, how)])
    }

    predicate HeadIsDue() {
      queue != [] && queue[0].seqNum == expected
    }

    // print_messages_due
    function PrintDue(): (s: State)
      ensures |s.queue| <= |queue|
      ensures HeadIsDue() ==> |s.queue| < |queue|
      decreases |queue|
    {
      if HeadIsDue() then State(expected + 1, queue[1..], log + [Logged(queue[0], Due)]).PrintDue() else this
    }

    // print_next_message
    function PrintNext(): (s: State)
      ensures queue != [] ==> |s.queue| < |queue|
    {
      if queue == [] then this else this.(expected := queue[0].seqNum).PrintDue()
    }

    // print_all_messages
    function PrintAll(): State
      decreases |queue|
    {
      if queue == [] then this else PrintNext().PrintAll()
    }

    // handle_incoming_message
    function Incoming(m: Message): State {
      if m.seqNum == -1 then Log(m, Unnumbered)
      else if m.seqNum == expected then Log(m, Due).(expected := expected + 1).PrintDue()
      else if m.seqNum < expected then Log(m, Late)
      else
        var s := this.(queue := Sort(BySeqNum, queue + [m]));
        if |s.queue| > LIMIT then s.PrintNext() else s
    }
  }

  const START := State(1, [], [])

  datatype Event = Arrive(m: Message) | TimeOut | Flush

  function Apply(s: State, e: Event): State {
    match e
    case Arrive(m) => s.Incoming(m)
    case TimeOut => s.PrintNext()
    case Flush => s.PrintAll()
  }

  function Run(events: seq<Event>): State {
    if events == [] then START else Apply(Run(events[..|events| - 1]), events[|events| - 1])
  }

  /** The server as an object; print_timed_out_messages is PrintNext behind a clock test. */
  class HTTPWebServer {
    var expectedHttpSeqNum: int
    var httpMessageQueue: seq<Message>
    var log: seq<Logged>

    function View(): State
      reads this
    {
      State(expectedHttpSeqNum, httpMessageQueue, log)
    }

    constructor ()
      ensures View() == START
    {
      expectedHttpSeqNum, httpMessageQueue, log := 1, [], [];
    }

    method HandleIncomingMessage(m: Message)
      modifies this
      ensures View() == old(View()).Incoming(m)
    {
      if m.seqNum == -1 {
        log := log + [Logged(m, Unnumbered)];
      } else if m.seqNum == expectedHttpSeqNum {
        log := log + [Logged(m, Due)];
        expectedHttpSeqNum := expectedHttpSeqNum + 1;
        PrintMessagesDue();
      } else if m.seqNum < expectedHttpSeqNum {
        log := log + [Logged(m, Late)];
      } else {
        httpMessageQueue := httpMessageQueue + [m];
        httpMessageQueue := Sort(BySeqNum, httpMessageQueue);
        if |httpMessageQueue| > LIMIT {
          PrintNextMessage();
        }
      }
    }

    method PrintMessagesDue()
      modifies this
      ensures View() == old(View()).PrintDue()
    {
      while |httpMessageQueue| > 0
        invariant View().PrintDue() == old(View()).PrintDue()
        decreases |httpMessageQueue|
      {
        var msg := httpMessageQueue[0];
        if msg.seqNum == expectedHttpSeqNum {
          log := log + [Logged(msg, Due)];
          expectedHttpSeqNum := expectedHttpSeqNum + 1;
          httpMessageQueue := httpMessageQueue[1..];
        } else {
          return;
        }
      }
    }

    method PrintNextMessage()
      modifies this
      ensures View() == old(View()).PrintNext()
    {
      if |httpMessageQueue| > 0 {
        expectedHttpSeqNum := httpMessageQueue[0].seqNum;
        PrintMessagesDue();
      }
    }

    // Terminates because every PrintNextMessage takes at least the head off the queue.
    method PrintAllMessages()
      modifies this
      ensures View() == old(View()).PrintAll()
      ensures httpMessageQueue == []
    {
      while |httpMessageQueue| > 0
        invariant View().PrintAll() == old(View()).PrintAll()
        decreases |httpMessageQueue|
      {
        PrintNextMessage();
      }
    }
  }

  // ---- Conservation ----

  function Messages(log: seq<Logged>): seq<Message> {
    seq(|log|, i requires 0 <= i < |log| => log[i].msg)
  }

  function Arrived(events: seq<Event>): multiset<Message> {
    if events == [] then multiset{}
    else
      var last := events[|events| - 1];
      Arrived(events[..|events| - 1]) + (if last.Arrive? then multiset{last.m} else multiset{})
  }

  // Everything the server has: logged or queued
  function Contents(s: State): multiset<Message> {
    multiset(Messages(s.log)) + multiset(s.queue)
  }

  lemma LogAdds(s: State, m: Message, how: How)
    ensures multiset(Messages(s.Log(m, how).log)) == multiset(Messages(s.log)) + multiset{m}
  {
    assert Messages(s.Log(m, how).log) == Messages(s.log) + [m];
  }

  lemma {:induction false} PrintDueConserves(s: State)
    ensures Contents(s.PrintDue()) == Contents(s)
    decreases |s.queue|
  {
    if s.HeadIsDue() {
      var next := State(s.expected + 1, s.queue[1..], s.log + [Logged(s.queue[0], Due)]);
      LogAdds(s, s.queue[0], Due);
      assert s.queue == [s.queue[0]] + s.queue[1..];
      PrintDueConserves(next);
    }
  }

  lemma PrintNextConserves(s: State)
    ensures Contents(s.PrintNext()) == Contents(s)
  {
    if s.queue != [] {
      PrintDueConserves(s.(expected := s.queue[0].seqNum));
    }
  }

  lemma {:induction false} PrintAllConserves(s: State)
    ensures Contents(s.PrintAll()) == Contents(s)
    ensures s.PrintAll().queue == []
    decreases |s.queue|
  {
    if s.queue != [] {
      PrintNextConserves(s);
      PrintAllConserves(s.PrintNext());
    }
  }

  lemma IncomingConserves(s: State, m: Message)
    ensures Contents(s.Incoming(m)) == Contents(s) + multiset{m}
  {
    if m.seqNum == -1 || m.seqNum < s.expected {
      LogAdds(s, m, Unnumbered);
      LogAdds(s, m, Late);
    } else if m.seqNum == s.expected {
      LogAdds(s, m, Due);
      PrintDueConserves(s.Log(m, Due).(expected := s.expected + 1));
    } else {
      SortPermutes(BySeqNum, s.queue + [m]);
      PrintNextConserves(s.(queue := Sort(BySeqNum, s.queue + [m])));
    }
  }

  /** On every run, timeouts, overflows and flushes included, the logged and the queued messages
      together are exactly the messages that arrived. */
  lemma {:induction false} NothingLostOrDuplicated(events: seq<Event>)
    ensures multiset(Messages(Run(events).log)) + multiset(Run(events).queue) == Arrived(events)
  {
    if events != [] {
      var before, e := Run(events[..|events| - 1]), events[|events| - 1];
      NothingLostOrDuplicated(events[..|events| - 1]);
      match e
      case Arrive(m) => IncomingConserves(before, m);
      case TimeOut => PrintNextConserves(before);
      case Flush => PrintAllConserves(before);
    }
  }

  // ---- The queue stays sorted and short ----

  lemma {:induction false} PrintDueKeepsSorted(s: State)
    requires Sorted(BySeqNum, s.queue)
    ensures Sorted(BySeqNum, s.PrintDue().queue)
    decreases |s.queue|
  {
    if s.HeadIsDue() {
      PrintDueKeepsSorted(State(s.expected + 1, s.queue[1..], s.log + [Logged(s.queue[0], Due)]));
    }
  }

  lemma PrintNextKeepsSorted(s: State)
    requires Sorted(BySeqNum, s.queue)
    ensures Sorted(BySeqNum, s.PrintNext().queue)
  {
    if s.queue != [] {
      PrintDueKeepsSorted(s.(expected := s.queue[0].seqNum));
    }
  }

  lemma IncomingKeepsSortedAndShort(s: State, m: Message)
    requires Sorted(BySeqNum, s.queue) && |s.queue| <= LIMIT
    ensures Sorted(BySeqNum, s.Incoming(m).queue) && |s.Incoming(m).queue| <= LIMIT
  {
    if m.seqNum == s.expected {
      PrintDueKeepsSorted(s.Log(m, Due).(expected := s.expected + 1));
    } else if m.seqNum > s.expected {
      SortSorts(BySeqNum, s.queue + [m]);
      SortPermutes(BySeqNum, s.queue + [m]);
      PrintNextKeepsSorted(s.(queue := Sort(BySeqNum, s.queue + [m])));
    }
  }

  /** Between calls the queue is sorted and holds at most 16 messages. */
  lemma {:induction false} QueueSortedAndShort(events: seq<Event>)
    ensures Sorted(BySeqNum, Run(events).queue) && |Run(events).queue| <= 16
  {
    if events != [] {
      var before, e := Run(events[..|events| - 1]), events[|events| - 1];
      QueueSortedAndShort(events[..|events| - 1]);
      match e
      case Arrive(m) => IncomingKeepsSortedAndShort(before, m);
      case TimeOut => PrintNextKeepsSorted(before);
      case Flush => PrintAllConserves(before);
    }
  }

  // ---- Order, for distinct numbers ----

  // Queued numbers are distinct and still to come; what was logged as due came in rising order.
  ghost predicate Orderly(s: State) {
    && s.expected >= 1
    && (forall i, j | 0 <= i < j < |s.queue| :: s.queue[i].seqNum < s.queue[j].seqNum)
    && (s.queue != [] ==> s.queue[0].seqNum > s.expected)
    && DueRising(s)
  }

  ghost predicate DueRising(s: State) {
    && (forall i, j | 0 <= i < j < |s.log| && s.log[i].how == s.log[j].how == Due ::
          s.log[i].msg.seqNum < s.log[j].msg.seqNum)
    && (forall i | 0 <= i < |s.log| && s.log[i].how == Due :: s.log[i].msg.seqNum < s.expected)
  }

  lemma {:induction false} PrintDueKeepsOrder(s: State)
    requires s.expected >= 1 && DueRising(s)
    requires forall i, j | 0 <= i < j < |s.queue| :: s.queue[i].seqNum < s.queue[j].seqNum
    requires s.queue != [] ==> s.queue[0].seqNum >= s.expected
    ensures Orderly(s.PrintDue()) && s.PrintDue().expected >= s.expected
    decreases |s.queue|
  {
    if s.HeadIsDue() {
      PrintDueKeepsOrder(State(s.expected + 1, s.queue[1..], s.log + [Logged(s.queue[0], Due)]));
    }
  }

  lemma PrintNextKeepsOrder(s: State)
    requires Orderly(s)
    ensures Orderly(s.PrintNext()) && s.PrintNext().expected >= s.expected
  {
    if s.queue != [] {
      PrintDueKeepsOrder(s.(expected := s.queue[0].seqNum));
    }
  }

  lemma {:induction false} PrintAllKeepsOrder(s: State)
    requires Orderly(s)
    ensures Orderly(s.PrintAll()) && s.PrintAll().expected >= s.expected
    decreases |s.queue|
  {
    if s.queue != [] {
      PrintNextKeepsOrder(s);
      PrintAllKeepsOrder(s.PrintNext());
    }
  }

  ghost predicate NotQueued(s: State, m: Message) {
    forall q | q in s.queue :: q.seqNum != m.seqNum
  }

  // Sorting in a number that is not queued yet keeps the queue strictly rising.
  lemma SortIsStrict(q: seq<Message>, m: Message, low: int)
    requires forall i, j | 0 <= i < j < |q| :: q[i].seqNum < q[j].seqNum
    requires m.seqNum > low && forall x | x in q :: x.seqNum != m.seqNum && x.seqNum > low
    ensures var r := Sort(BySeqNum, q + [m]);
      && (forall i, j | 0 <= i < j < |r| :: r[i].seqNum < r[j].seqNum)
      && r != [] && r[0].seqNum > low
  {
    var r := Sort(BySeqNum, q + [m]);
    SortSorts(BySeqNum, q + [m]);
    SortPermutes(BySeqNum, q + [m]);
    hide Sort;
    StrictFromDistinct(r, q, m);
    assert r[0] in multiset(r);
    assert r[0] == m || r[0] in q;
  }

  lemma SortKeepsStrict(s: State, m: Message)
    requires Orderly(s) && m.seqNum > s.expected && NotQueued(s, m)
    ensures Orderly(s.(queue := Sort(BySeqNum, s.queue + [m])))
  {
    hide Sort;
    forall q | q in s.queue ensures q.seqNum > s.expected {
      var i :| 0 <= i < |s.queue| && s.queue[i] == q;
      assert i > 0 ==> s.queue[0].seqNum < s.queue[i].seqNum;
    }
    SortIsStrict(s.queue, m, s.expected);
  }

  lemma StrictFromDistinct(r: seq<Message>, q: seq<Message>, m: Message)
    requires Sorted(BySeqNum, r) && multiset(r) == multiset(q) + multiset{m}
    requires forall i, j | 0 <= i < j < |q| :: q[i].seqNum < q[j].seqNum
    requires forall x | x in q :: x.seqNum != m.seqNum
    ensures forall i, j | 0 <= i < j < |r| :: r[i].seqNum < r[j].seqNum
  {
    forall i, j | 0 <= i < j < |r| ensures r[i].seqNum < r[j].seqNum {
      assert BySeqNum(r[i], r[j]);
      if r[i].seqNum == r[j].seqNum {
        assert r[i] in multiset(r) && r[j] in multiset(r);
        if r[i] == r[j] {
          assert r == r[..i] + [r[i]] + r[i + 1..j] + [r[j]] + r[j + 1..];
          assert multiset(r)[r[i]] >= 2;
          DistinctCountsOnce(q, r[i]);
        }
      }
    }
  }

  lemma {:induction false} DistinctCountsOnce(q: seq<Message>, x: Message)
    requires forall i, j | 0 <= i < j < |q| :: q[i].seqNum < q[j].seqNum
    ensures multiset(q)[x] <= 1
  {
    if q != [] {
      var front := q[..|q| - 1];
      assert q == front + [q[|q| - 1]];
      DistinctCountsOnce(front, x);
      assert x in front ==> x.seqNum < q[|q| - 1].seqNum;
    }
  }

  ghost predicate NeverRequeued(events: seq<Event>) {
    forall k | 0 <= k < |events| && events[k].Arrive? :: NotQueued(Run(events[..k]), events[k].m)
  }

  lemma OtherLogKeepsOrder(s: State, m: Message, how: How)
    requires Orderly(s) && how != Due
    ensures Orderly(s.Log(m, how))
  {
  }

  lemma DueLogKeepsOrder(s: State, m: Message)
    requires Orderly(s) && m.seqNum == s.expected
    ensures var t := s.Log(m, Due).(expected := s.expected + 1);
      && t.expected >= 1 && DueRising(t)
      && (forall i, j | 0 <= i < j < |t.queue| :: t.queue[i].seqNum < t.queue[j].seqNum)
      && (t.queue != [] ==> t.queue[0].seqNum >= t.expected)
  {
  }

  lemma IncomingKeepsOrder(s: State, m: Message)
    requires Orderly(s) && NotQueued(s, m)
    ensures Orderly(s.Incoming(m)) && s.Incoming(m).expected >= s.expected
  {
    hide Sort, DueRising, Orderly, NotQueued;
    if m.seqNum == -1 || m.seqNum < s.expected {
      OtherLogKeepsOrder(s, m, Unnumbered);
      OtherLogKeepsOrder(s, m, Late);
    } else if m.seqNum == s.expected {
      DueLogKeepsOrder(s, m);
      PrintDueKeepsOrder(s.Log(m, Due).(expected := s.expected + 1));
    } else {
      SortKeepsStrict(s, m);
      PrintNextKeepsOrder(s.(queue := Sort(BySeqNum, s.queue + [m])));
    }
  }

  /** One call keeps order: the expected number never goes back, and the messages logged as due
      are strictly rising, as long as no number arrives while the same number is queued. */
  lemma ApplyKeepsOrder(s: State, e: Event)
    requires Orderly(s) && (e.Arrive? ==> NotQueued(s, e.m))
    ensures Orderly(Apply(s, e)) && Apply(s, e).expected >= s.expected
  {
    hide Orderly, Sort;
    match e
    case Arrive(m) =>
      IncomingKeepsOrder(s, m);
    case TimeOut =>
      PrintNextKeepsOrder(s);
    case Flush =>
      PrintAllKeepsOrder(s);
  }

  lemma {:induction false} RunKeepsOrder(events: seq<Event>)
    requires NeverRequeued(events)
    ensures Orderly(Run(events))
  {
    if events != [] {
      var before := events[..|events| - 1];
      forall k | 0 <= k < |before| && before[k].Arrive? ensures NotQueued(Run(before[..k]), before[k].m) {
        assert before[..k] == events[..k];
      }
      RunKeepsOrder(before);
      ApplyKeepsOrder(Run(before), events[|events| - 1]);
    }
  }

  // No two arrivals carry the same number; messages without one do not count.
  ghost predicate DistinctNumbers(events: seq<Event>) {
    forall i, j | 0 <= i < j < |events| && events[i].Arrive? && events[j].Arrive? && events[j].m.seqNum != -1 ::
      events[i].m.seqNum != events[j].m.seqNum
  }

  lemma {:induction false} ArrivedOnes(events: seq<Event>, m: Message)
    ensures m in Arrived(events) <==> Arrive(m) in events
  {
    if events != [] {
      ArrivedOnes(events[..|events| - 1], m);
      assert events == events[..|events| - 1] + [events[|events| - 1]];
    }
  }

  lemma {:induction false} NoNegativeQueued(events: seq<Event>)
    requires NeverRequeued(events)
    ensures forall q | q in Run(events).queue :: q.seqNum > 1
  {
    RunKeepsOrder(events);
    var s := Run(events);
    forall q | q in s.queue ensures q.seqNum > 1 {
      var i :| 0 <= i < |s.queue| && s.queue[i] == q;
      assert i > 0 ==> s.queue[0].seqNum < s.queue[i].seqNum;
    }
  }

  lemma {:induction false} DistinctNeverRequeues(events: seq<Event>)
    requires DistinctNumbers(events)
    ensures NeverRequeued(events)
  {
    if events != [] {
      var before, e := events[..|events| - 1], events[|events| - 1];
      DistinctNeverRequeues(before);
      NoNegativeQueued(before);
      forall k | 0 <= k < |events| && events[k].Arrive? ensures NotQueued(Run(events[..k]), events[k].m) {
        assert k < |before| ==> events[..k] == before[..k] && events[k] == before[k];
        if k == |before| {
          NothingLostOrDuplicated(before);
          forall q | q in Run(before).queue ensures q.seqNum != e.m.seqNum {
            assert q in Arrived(before);
            ArrivedOnes(before, q);
            var i :| 0 <= i < |before| && before[i] == Arrive(q);
            assert events[i] == Arrive(q);
          }
        }
      }
    }
  }

  /** For distinct numbers, on every run: the next call never lowers the expected number, and the
      numbered messages that were not late are logged in strictly rising order. */
  lemma DistinctNumbersStayInOrder(events: seq<Event>, e: Event)
    requires DistinctNumbers(events + [e])
    ensures Run(events + [e]).expected >= Run(events).expected
    ensures DueRising(Run(events + [e]))
  {
    var all := events + [e];
    DistinctNeverRequeues(all);
    assert all[..|events|] == events;
    forall k | 0 <= k < |events| && events[k].Arrive? ensures NotQueued(Run(events[..k]), events[k].m) {
      assert all[..k] == events[..k] && all[k] == events[k];
    }
    RunKeepsOrder(events);
    assert e.Arrive? ==> all[|events|] == e;
    ApplyKeepsOrder(Run(events), e);
  }

  // ---- What repeated numbers do ----

  function QueuedNumbers(q: seq<Message>): multiset<int> {
    if q == [] then multiset{} else QueuedNumbers(q[..|q| - 1]) + multiset{q[|q| - 1].seqNum}
  }

  function DueNumbers(log: seq<Logged>): multiset<int> {
    if log == [] then multiset{}
    else
      var last := log[|log| - 1];
      DueNumbers(log[..|log| - 1]) + (if last.how == Due then multiset{last.msg.seqNum} else multiset{})
  }

  // The numbers logged as due or still queued: no call takes one away.
  function Held(s: State): multiset<int> {
    DueNumbers(s.log) + QueuedNumbers(s.queue)
  }

  lemma DueNumbersNext(log: seq<Logged>, l: Logged)
    ensures DueNumbers(log + [l]) == DueNumbers(log) + (if l.how == Due then multiset{l.msg.seqNum} else multiset{})
  {
    assert (log + [l])[..|log|] == log;
  }

  lemma QueuedNumbersNext(q: seq<Message>, m: Message)
    ensures QueuedNumbers(q + [m]) == QueuedNumbers(q) + multiset{m.seqNum}
  {
    assert (q + [m])[..|q|] == q;
  }

  lemma QueuedNumbersLast(q: seq<Message>)
    requires q != []
    ensures QueuedNumbers(q) == QueuedNumbers(q[..|q| - 1]) + multiset{q[|q| - 1].seqNum}
    ensures |q| == 1 ==> QueuedNumbers(q[1..]) == QueuedNumbers(q[..0]) == multiset{}
  {
  }

  lemma {:induction false} QueuedNumbersHead(q: seq<Message>)
    requires q != []
    ensures QueuedNumbers(q) == multiset{q[0].seqNum} + QueuedNumbers(q[1..])
  {
    hide QueuedNumbers;
    QueuedNumbersLast(q);
    if |q| > 1 {
      var front, tail := q[..|q| - 1], q[1..];
      QueuedNumbersHead(front);
      QueuedNumbersLast(tail);
      assert front[1..] == tail[..|tail| - 1];
    }
  }

  lemma {:induction false} PrintDueHolds(s: State)
    ensures Held(s.PrintDue()) == Held(s)
    decreases |s.queue|
  {
    if s.HeadIsDue() {
      DueNumbersNext(s.log, Logged(s.queue[0], Due));
      QueuedNumbersHead(s.queue);
      hide DueNumbers, QueuedNumbers;
      PrintDueHolds(State(s.expected + 1, s.queue[1..], s.log + [Logged(s.queue[0], Due)]));
    }
  }

  lemma PrintNextHolds(s: State)
    ensures Held(s.PrintNext()) == Held(s)
  {
    hide DueNumbers, QueuedNumbers;
    if s.queue != [] {
      PrintDueHolds(s.(expected := s.queue[0].seqNum));
    }
  }

  lemma {:induction false} PrintAllHolds(s: State)
    ensures Held(s.PrintAll()) == Held(s)
    decreases |s.queue|
  {
    hide Held;
    if s.queue != [] {
      PrintNextHolds(s);
      PrintAllHolds(s.PrintNext());
    }
  }

  lemma {:induction false} InsertQueues(m: Message, q: seq<Message>)
    ensures QueuedNumbers(Insert(BySeqNum, m, q)) == QueuedNumbers(q) + multiset{m.seqNum}
  {
    if q == [] || BySeqNum(q[|q| - 1], m) {
      QueuedNumbersNext(q, m);
    } else {
      InsertQueues(m, q[..|q| - 1]);
      QueuedNumbersNext(Insert(BySeqNum, m, q[..|q| - 1]), q[|q| - 1]);
    }
  }

  lemma {:induction false} SortQueues(q: seq<Message>)
    ensures QueuedNumbers(Sort(BySeqNum, q)) == QueuedNumbers(q)
  {
    if q != [] {
      SortQueues(q[..|q| - 1]);
      InsertQueues(q[|q| - 1], Sort(BySeqNum, q[..|q| - 1]));
    }
  }

  // Of an arrival, a number that is due or early is added to what is held.
  lemma IncomingHolds(s: State, m: Message)
    ensures Held(s.Incoming(m)) ==
            if m.seqNum != -1 && m.seqNum >= s.expected then Held(s) + multiset{m.seqNum} else Held(s)
  {
    hide Sort, DueNumbers, QueuedNumbers;
    if m.seqNum == -1 || m.seqNum < s.expected {
      DueNumbersNext(s.log, Logged(m, Unnumbered));
      DueNumbersNext(s.log, Logged(m, Late));
    } else if m.seqNum == s.expected {
      DueNumbersNext(s.log, Logged(m, Due));
      PrintDueHolds(s.Log(m, Due).(expected := s.expected + 1));
    } else {
      QueuedNumbersNext(s.queue, m);
      SortQueues(s.queue + [m]);
      PrintNextHolds(s.(queue := Sort(BySeqNum, s.queue + [m])));
    }
  }

  lemma ApplyHolds(s: State, e: Event)
    ensures Held(s) <= Held(Apply(s, e))
  {
    hide Held;
    match e
    case Arrive(m) => IncomingHolds(s, m);
    case TimeOut => PrintNextHolds(s);
    case Flush => PrintAllHolds(s);
  }

  lemma {:induction false} RunHolds(events: seq<Event>, k: nat)
    requires k <= |events|
    ensures Held(Run(events[..k])) <= Held(Run(events))
  {
    hide Held, Apply;
    if k == |events| {
      assert events[..k] == events;
    } else {
      var front := events[..|events| - 1];
      assert front[..k] == events[..k];
      RunHolds(front, k);
      ApplyHolds(Run(front), events[|events| - 1]);
    }
  }

  // In a rising log no number is due twice.
  lemma {:induction false} RisingHoldsOnce(log: seq<Logged>, n: int)
    requires forall i, j | 0 <= i < j < |log| && log[i].how == log[j].how == Due ::
               log[i].msg.seqNum < log[j].msg.seqNum
    ensures DueNumbers(log)[n] <= 1
    ensures n in DueNumbers(log) ==> exists i :: 0 <= i < |log| && log[i].how == Due && log[i].msg.seqNum == n
  {
    if log != [] {
      var front, last := log[..|log| - 1], log[|log| - 1];
      RisingHoldsOnce(front, n);
      if n in DueNumbers(front) {
        var i :| 0 <= i < |front| && front[i].how == Due && front[i].msg.seqNum == n;
        assert log[i] == front[i];
      }
    }
  }

  lemma {:induction false} QueuedIsHeld(q: seq<Message>, m: Message)
    requires m in q
    ensures m.seqNum in QueuedNumbers(q)
  {
    if m != q[|q| - 1] {
      assert q == q[..|q| - 1] + [q[|q| - 1]];
      QueuedIsHeld(q[..|q| - 1], m);
    }
  }

  // A number that arrives while it is queued is held twice.
  lemma RequeuedIsHeldTwice(s: State, m: Message)
    requires Orderly(s) && !NotQueued(s, m)
    ensures Held(s.Incoming(m))[m.seqNum] >= 2
  {
    var i :| 0 <= i < |s.queue| && s.queue[i].seqNum == m.seqNum;
    assert i > 0 ==> s.queue[0].seqNum < s.queue[i].seqNum;
    QueuedIsHeld(s.queue, s.queue[i]);
    IncomingHolds(s, m);
  }

  // The first event at which a queued number arrives
  lemma {:induction false} FirstRequeued(events: seq<Event>) returns (k: nat)
    requires !NeverRequeued(events)
    ensures k < |events| && events[k].Arrive? && NeverRequeued(events[..k]) && !NotQueued(Run(events[..k]), events[k].m)
  {
    hide NotQueued, Run;
    var n := |events| - 1;
    var front := events[..n];
    if NeverRequeued(front) {
      k := n;
      forall i | 0 <= i < n ensures events[i] == front[i] && events[..i] == front[..i] {
      }
    } else {
      k := FirstRequeued(front);
      assert front[..k] == events[..k];
    }
  }

  /** Order is lost exactly when a number arrives while the same number is queued: the due messages
      of a run, with what is still queued flushed behind them, come in strictly rising order if and
      only if that never happens. */
  lemma DueRisingIffNeverRequeued(events: seq<Event>)
    ensures DueRising(Run(events).PrintAll()) <==> NeverRequeued(events)
  {
    if NeverRequeued(events) {
      RunKeepsOrder(events);
      PrintAllKeepsOrder(Run(events));
    } else {
      var k := FirstRequeued(events);
      var m := events[k].m;
      RunKeepsOrder(events[..k]);
      RequeuedIsHeldTwice(Run(events[..k]), m);
      assert events[..k + 1][..k] == events[..k];
      RunHolds(events, k + 1);
      PrintAllHolds(Run(events));
      PrintAllConserves(Run(events));
      HeldTwiceIsNotRising(Run(events).PrintAll(), m.seqNum);
    }
  }

  lemma HeldTwiceIsNotRising(s: State, n: int)
    requires s.queue == [] && Held(s)[n] >= 2
    ensures !DueRising(s)
  {
    if DueRising(s) {
      RisingHoldsOnce(s.log, n);
    }
  }

  // How many numbers follow on from n at the head of the queue
  function RunLength(q: seq<Message>, n: int): nat {
    if q != [] && q[0].seqNum == n then 1 + RunLength(q[1..], n + 1) else 0
  }

  // print_next_message of this queue ends below the expected number.
  predicate SkipsBack(q: seq<Message>, expected: int) {
    q != [] && q[0].seqNum + RunLength(q, q[0].seqNum) < expected
  }

  lemma {:induction false} PrintDueExpects(s: State)
    ensures s.PrintDue().expected == s.expected + RunLength(s.queue, s.expected)
    ensures s.PrintDue().queue == [] && s.queue != [] ==> s.PrintDue().expected == s.queue[|s.queue| - 1].seqNum + 1
    ensures s.PrintDue().queue != [] ==> s.PrintDue().queue[|s.PrintDue().queue| - 1] == s.queue[|s.queue| - 1]
    decreases |s.queue|
  {
    if s.HeadIsDue() {
      PrintDueExpects(State(s.expected + 1, s.queue[1..], s.log + [Logged(s.queue[0], Due)]));
    }
  }

  lemma PrintNextExpects(s: State)
    ensures s.PrintNext().expected < s.expected <==> SkipsBack(s.queue, s.expected)
  {
    if s.queue != [] {
      PrintDueExpects(s.(expected := s.queue[0].seqNum));
    }
  }

  lemma {:induction false} PrintAllExpects(s: State)
    ensures s.PrintAll().expected == if s.queue == [] then s.expected else s.queue[|s.queue| - 1].seqNum + 1
    decreases |s.queue|
  {
    if s.queue != [] {
      PrintDueExpects(s.(expected := s.queue[0].seqNum));
      PrintAllExpects(s.PrintNext());
    }
  }

  // The calls that take the expected number back
  predicate ExpectedFalls(s: State, e: Event) {
    match e
    case Arrive(m) =>
      m.seqNum > s.expected && m.seqNum != -1 && |s.queue| >= LIMIT &&
      SkipsBack(Sort(BySeqNum, s.queue + [m]), s.expected)
    case TimeOut => SkipsBack(s.queue, s.expected)
    case Flush => s.queue != [] && s.queue[|s.queue| - 1].seqNum + 1 < s.expected
  }

  /** A call takes the expected number back if and only if it skips to a head of the queue whose
      run of successive numbers ends below the expected number, or flushes a queue that does. */
  lemma ExpectedFallsIff(s: State, e: Event)
    ensures Apply(s, e).expected < s.expected <==> ExpectedFalls(s, e)
  {
    hide Sort, SkipsBack;
    match e
    case Arrive(m) =>
      if m.seqNum == s.expected {
        PrintDueExpects(s.Log(m, Due).(expected := s.expected + 1));
      } else if m.seqNum > s.expected {
        SortPermutes(BySeqNum, s.queue + [m]);
        PrintNextExpects(s.(queue := Sort(BySeqNum, s.queue + [m])));
      }
    case TimeOut => PrintNextExpects(s);
    case Flush => PrintAllExpects(s);
  }

  function Num(n: int): Message {
    Message(n, "", false)
  }

  lemma EarlyIsQueued(s: State, m: Message)
    requires m.seqNum > s.expected && m.seqNum != -1 && |s.queue| < LIMIT
    requires Sort(BySeqNum, s.queue + [m]) == s.queue + [m]
    ensures s.Incoming(m) == s.(queue := s.queue + [m])
  {
    hide Sort;
  }

  lemma RepeatedNumberQueued()
    ensures START.Incoming(Num(2)).Incoming(Num(2)) == State(1, [Num(2), Num(2)], [])
  {
    SortAppended(BySeqNum, [], Num(2));
    SortAppended(BySeqNum, [Num(2)], Num(2));
    hide Sort;
    EarlyIsQueued(START, Num(2));
    EarlyIsQueued(State(1, [Num(2)], []), Num(2));
    hide *;
    assert [] + [Num(2)] == [Num(2)] && [Num(2)] + [Num(2)] == [Num(2), Num(2)];
  }

  // The head of the queue is due and what follows it is not.
  lemma DueTakesHead(s: State, n: int, rest: seq<Message>)
    requires s.queue == [Num(n)] + rest && (rest != [] ==> rest[0].seqNum != n + 1)
    ensures s.expected == n ==> s.PrintDue() == State(n + 1, rest, s.log + [Logged(Num(n), Due)])
    ensures s.expected != n ==> s.PrintDue() == s
  {
    assert s.queue[1..] == rest;
  }

  lemma RepeatedNumberSkipped(log: seq<Logged>)
    ensures State(1, [Num(2), Num(2)], log).Incoming(Num(1)).expected == 3
    ensures State(1, [Num(2), Num(2)], log).Incoming(Num(1)).queue == [Num(2)]
  {
    hide Sort;
    var s := State(2, [Num(2), Num(2)], log + [Logged(Num(1), Due)]);
    assert [Num(2)] + [Num(2)] == s.queue;
    DueTakesHead(s, 2, [Num(2)]);
  }

  lemma RepeatedNumberLeft(log: seq<Logged>)
    ensures var s := State(3, [Num(2)], log).Incoming(Num(3));
      s.expected == 4 && s.PrintNext().expected == 3
  {
    hide Sort;
    var s := State(4, [Num(2)], log + [Logged(Num(3), Due)]);
    assert [Num(2)] + [] == s.queue;
    DueTakesHead(s, 2, []);
    DueTakesHead(s.(expected := 2), 2, []);
  }

  /** For instance: after 2, 2, 1, 3 the queue still holds a 2, and a timeout takes the expected
      number from 4 back to 3. */
  lemma RepeatedNumberRewinds()
    ensures var s := START.Incoming(Num(2)).Incoming(Num(2)).Incoming(Num(1)).Incoming(Num(3));
      s.expected == 4 && s.PrintNext().expected == 3
  {
    RepeatedNumberQueued();
    RepeatedNumberSkipped([]);
    var s := State(1, [Num(2), Num(2)], []).Incoming(Num(1));
    hide Sort;
    RepeatedNumberLeft(s.log);
    assert s == State(3, [Num(2)], s.log);
  }

  // ---- How much reordering the queue absorbs ----

  // The log is exactly 1, 2, ..., expected - 1.
  predicate InSequence(s: State) {
    && |s.log| == s.expected - 1
    && (forall k | 0 <= k < |s.log| :: s.log[k].msg.seqNum == k + 1)
  }

  ghost function Numbers(ms: multiset<Message>): set<int> {
    set m | m in ms :: m.seqNum
  }

  // The page numbers its messages 1, 2, ...; a is the order in which they arrive.
  ghost predicate IsArrivalOrder(a: seq<Message>) {
    && (forall i, j | 0 <= i < j < |a| :: a[i].seqNum != a[j].seqNum)
    && (forall i | 0 <= i < |a| :: 1 <= a[i].seqNum <= |a|)
    && (forall v | 1 <= v <= |a| :: v in Numbers(multiset(a)))
  }

  // The later-numbered messages that overtake message i
  ghost function Overtakers(a: seq<Message>, i: nat): set<int>
    requires i < |a|
  {
    set j | 0 <= j < i && a[j].seqNum > a[i].seqNum :: a[j].seqNum
  }

  function Arrivals(a: seq<Message>): seq<Event> {
    seq(|a|, i requires 0 <= i < |a| => Arrive(a[i]))
  }

  // The server once the first k messages have arrived, with no timeouts
  function After(a: seq<Message>, k: nat): State
    requires k <= |a|
  {
    Run(Arrivals(a)[..k])
  }

  lemma AfterNext(a: seq<Message>, k: nat)
    requires k < |a|
    ensures After(a, k + 1) == After(a, k).Incoming(a[k])
  {
    assert Arrivals(a)[..k + 1][..k] == Arrivals(a)[..k];
  }

  lemma {:induction false} ArrivedPrefix(a: seq<Message>, k: nat)
    requires k <= |a|
    ensures Arrived(Arrivals(a)[..k]) == multiset(a[..k])
  {
    if k > 0 {
      ArrivedPrefix(a, k - 1);
      assert Arrivals(a)[..k][..k - 1] == Arrivals(a)[..k - 1] && Arrivals(a)[..k][k - 1] == Arrive(a[k - 1]);
      hide Arrivals;
      assert a[..k] == a[..k - 1] + [a[k - 1]];
    }
  }

  // The numbers logged and queued are those that arrived.
  ghost predicate Accounts(s: State, arrived: seq<Message>) {
    Numbers(multiset(arrived)) == Numbers(multiset(Messages(s.log))) + Numbers(multiset(s.queue))
  }

  lemma AfterAccounts(a: seq<Message>, k: nat)
    requires k <= |a|
    ensures Accounts(After(a, k), a[..k])
  {
    ArrivedPrefix(a, k);
    NothingLostOrDuplicated(Arrivals(a)[..k]);
  }

  lemma NumbersInSequence(s: State, v: int)
    requires InSequence(s)
    ensures v in Numbers(multiset(Messages(s.log))) <==> 1 <= v < s.expected
  {
    var l := Messages(s.log);
    if 1 <= v < s.expected {
      assert l[v - 1] in multiset(l) && l[v - 1].seqNum == v;
    }
    if v in Numbers(multiset(l)) {
      var m :| m in multiset(l) && m.seqNum == v;
      var q :| 0 <= q < |l| && l[q] == m;
      assert s.log[q].msg.seqNum == q + 1;
    }
  }

  lemma NotYetArrived(a: seq<Message>, k: nat)
    requires k < |a| && IsArrivalOrder(a)
    ensures a[k].seqNum !in Numbers(multiset(a[..k]))
  {
    forall m: Message | m in multiset(a[..k]) ensures m.seqNum != a[k].seqNum {
      var j :| 0 <= j < k && a[..k][j] == m;
      assert a[j].seqNum != a[k].seqNum;
    }
  }

  lemma NumbersOfLast(q: seq<Message>)
    requires q != []
    ensures Numbers(multiset(q)) == Numbers(multiset(q[..|q| - 1])) + {q[|q| - 1].seqNum}
  {
    assert q == q[..|q| - 1] + [q[|q| - 1]];
  }

  lemma {:induction false} NumbersBound(q: seq<Message>)
    ensures |Numbers(multiset(q))| <= |q|
  {
    if q != [] {
      NumbersBound(q[..|q| - 1]);
      NumbersOfLast(q);
    }
  }

  lemma {:induction false} StrictQueueSize(q: seq<Message>)
    requires forall i, j | 0 <= i < j < |q| :: q[i].seqNum < q[j].seqNum
    ensures |Numbers(multiset(q))| == |q|
  {
    if q != [] {
      var front := q[..|q| - 1];
      StrictQueueSize(front);
      NumbersOfLast(q);
      forall m: Message | m in multiset(front) ensures m.seqNum < q[|q| - 1].seqNum {
        assert m in front;
      }
    }
  }

  lemma QueueBeyondExpected(s: State)
    requires Orderly(s)
    ensures forall v | v in Numbers(multiset(s.queue)) :: v > s.expected
  {
    forall m: Message | m in multiset(s.queue) ensures m.seqNum > s.expected {
      var i :| 0 <= i < |s.queue| && s.queue[i] == m;
      assert i > 0 ==> s.queue[0].seqNum < s.queue[i].seqNum;
    }
  }

  lemma SubsetSize(a: set<int>, b: set<int>)
    requires a <= b
    ensures |a| <= |b|
  {
    assert |b - a| == |b| - |a|;
  }

  lemma {:induction false} PrintDueStaysInSequence(s: State)
    requires InSequence(s)
    ensures InSequence(s.PrintDue())
    decreases |s.queue|
  {
    if s.HeadIsDue() {
      PrintDueStaysInSequence(State(s.expected + 1, s.queue[1..], s.log + [Logged(s.queue[0], Due)]));
    }
  }

  // A number is accounted for by being passed or being queued.
  lemma AccountedNumber(s: State, arrived: seq<Message>, v: int)
    requires InSequence(s) && Accounts(s, arrived)
    ensures v in Numbers(multiset(arrived)) <==> 1 <= v < s.expected || v in Numbers(multiset(s.queue))
  {
    NumbersInSequence(s, v);
  }

  lemma IncomingInSequence(s: State, m: Message)
    requires InSequence(s) && m.seqNum >= s.expected
    requires m.seqNum > s.expected ==> |s.queue| < LIMIT
    ensures InSequence(s.Incoming(m))
  {
    if m.seqNum == s.expected {
      PrintDueStaysInSequence(s.Log(m, Due).(expected := s.expected + 1));
    } else {
      SortPermutes(BySeqNum, s.queue + [m]);
    }
  }

  // An arrival that does not overflow the queue.
  lemma IncomingStaysInSequence(s: State, arrived: seq<Message>, m: Message)
    requires InSequence(s) && Orderly(s) && Accounts(s, arrived)
    requires m.seqNum >= 1 && m.seqNum !in Numbers(multiset(arrived))
    requires m.seqNum > s.expected ==> |s.queue| < LIMIT
    ensures InSequence(s.Incoming(m)) && Orderly(s.Incoming(m))
  {
    AccountedNumber(s, arrived, m.seqNum);
    forall q | q in s.queue ensures q.seqNum != m.seqNum {
      assert q in multiset(s.queue) && q.seqNum in Numbers(multiset(s.queue));
    }
    ApplyKeepsOrder(s, Arrive(m));
    IncomingInSequence(s, m);
  }

  // Everything that has arrived beyond a number is an overtaker of the message with it.
  lemma ArrivedOvertakes(a: seq<Message>, k: nat, i: nat, v: int)
    requires k <= i < |a| && v in Numbers(multiset(a[..k])) && v > a[i].seqNum
    ensures v in Overtakers(a, i)
  {
    var m :| m in multiset(a[..k]) && m.seqNum == v;
    var j :| 0 <= j < k && a[..k][j] == m;
    assert a[j].seqNum == v;
  }

  // If the next arrival would overflow the queue, the expected message comes later and is
  // overtaken by everything queued and by that arrival.
  lemma OverflowMeansOvertaken(a: seq<Message>, k: nat, s: State) returns (i: nat)
    requires k < |a| && IsArrivalOrder(a) && InSequence(s) && Orderly(s) && Accounts(s, a[..k])
    requires a[k].seqNum > s.expected && |s.queue| >= LIMIT
    ensures i < |a| && |Overtakers(a, i)| > LIMIT
  {
    i := ExpectedComesLater(a, k, s);
    QueueOvertakes(a, k, i, s);
    StrictQueueSize(s.queue);
    NotYetArrived(a, k);
    SubsetSize(Numbers(multiset(s.queue)) + {a[k].seqNum}, Overtakers(a, i));
  }

  lemma QueueOvertakes(a: seq<Message>, k: nat, i: nat, s: State)
    requires k < i < |a| && Orderly(s) && Accounts(s, a[..k]) && a[i].seqNum == s.expected < a[k].seqNum
    ensures Numbers(multiset(s.queue)) + {a[k].seqNum} <= Overtakers(a, i)
  {
    QueueBeyondExpected(s);
    forall v | v in Numbers(multiset(s.queue)) ensures v in Overtakers(a, i) {
      ArrivedOvertakes(a, k, i, v);
    }
  }

  lemma ExpectedComesLater(a: seq<Message>, k: nat, s: State) returns (i: nat)
    requires k < |a| && IsArrivalOrder(a) && InSequence(s) && Orderly(s) && Accounts(s, a[..k])
    requires a[k].seqNum > s.expected
    ensures k < i < |a| && a[i].seqNum == s.expected
  {
    AccountedNumber(s, a[..k], s.expected);
    QueueBeyondExpected(s);
    assert s.expected in Numbers(multiset(a));
    var m: Message :| m in multiset(a) && m.seqNum == s.expected;
    i :| 0 <= i < |a| && a[i] == m;
    PrefixNumber(a, k, i);
  }

  lemma PrefixNumber(a: seq<Message>, k: nat, i: nat)
    requires k <= |a| && i < |a|
    ensures i < k ==> a[i].seqNum in Numbers(multiset(a[..k]))
  {
    if i < k {
      assert a[..k][i] in multiset(a[..k]);
    }
  }

  lemma NothingIsInSequence()
    ensures InSequence(START) && Orderly(START)
  {
  }

  lemma {:induction false} BoundedReorderingStaysInSequence(a: seq<Message>, k: nat)
    requires k <= |a| && IsArrivalOrder(a)
    requires forall i | 0 <= i < |a| :: |Overtakers(a, i)| <= LIMIT
    ensures InSequence(After(a, k)) && Orderly(After(a, k))
  {
    hide InSequence, Orderly, Accounts, Overtakers;
    if k == 0 {
      NothingIsInSequence();
      assert Arrivals(a)[..0] == [];
    } else {
      BoundedReorderingStaysInSequence(a, k - 1);
      var s := After(a, k - 1);
      AfterAccounts(a, k - 1);
      AfterNext(a, k - 1);
      NotYetArrived(a, k - 1);
      if a[k - 1].seqNum > s.expected && |s.queue| >= LIMIT {
        var _ := OverflowMeansOvertaken(a, k - 1, s);
      } else {
        IncomingStaysInSequence(s, a[..k - 1], a[k - 1]);
      }
    }
  }

  // Whoever finds the log in sequence was overtaken only by what is still queued.
  lemma InSequenceMeansFewOvertook(a: seq<Message>, i: nat, s: State)
    requires i < |a| && IsArrivalOrder(a) && InSequence(s) && Accounts(s, a[..i]) && |s.queue| <= LIMIT
    ensures |Overtakers(a, i)| <= LIMIT
  {
    NotYetArrived(a, i);
    AccountedNumber(s, a[..i], a[i].seqNum);
    forall v | v in Overtakers(a, i) ensures v in Numbers(multiset(s.queue)) {
      var j :| 0 <= j < i && a[j].seqNum == v && v > a[i].seqNum;
      assert a[..i][j] in multiset(a[..i]);
      AccountedNumber(s, a[..i], v);
    }
    SubsetSize(Overtakers(a, i), Numbers(multiset(s.queue)));
    NumbersBound(s.queue);
  }

  /** The reorder bound, exactly: with no timeouts, the log is 1, 2, ..., expected - 1 after every
      arrival if and only if no message is overtaken by more than 16 later-numbered ones. */
  lemma ReorderBound(a: seq<Message>)
    requires IsArrivalOrder(a)
    ensures (forall k | 0 <= k <= |a| :: InSequence(After(a, k))) <==>
            (forall i | 0 <= i < |a| :: |Overtakers(a, i)| <= 16)
  {
    if forall i | 0 <= i < |a| :: |Overtakers(a, i)| <= LIMIT {
      forall k | 0 <= k <= |a| ensures InSequence(After(a, k)) {
        BoundedReorderingStaysInSequence(a, k);
      }
    }
    if forall k | 0 <= k <= |a| :: InSequence(After(a, k)) {
      forall i | 0 <= i < |a| ensures |Overtakers(a, i)| <= LIMIT {
        AfterAccounts(a, i);
        QueueSortedAndShort(Arrivals(a)[..i]);
        InSequenceMeansFewOvertook(a, i, After(a, i));
      }
    }
  }

  /** Within the bound the whole log comes out in order once everything has arrived. */
  lemma WithinBoundAllInOrder(a: seq<Message>)
    requires IsArrivalOrder(a)
    requires forall i | 0 <= i < |a| :: |Overtakers(a, i)| <= 16
    ensures var s := After(a, |a|);
      s.queue == [] && |s.log| == |a| && forall k | 0 <= k < |a| :: s.log[k].msg.seqNum == k + 1
  {
    BoundedReorderingStaysInSequence(a, |a|);
    AfterAccounts(a, |a|);
    assert a[..|a|] == a;
    AllAccountedFor(a, After(a, |a|));
  }

  lemma AllAccountedFor(a: seq<Message>, s: State)
    requires IsArrivalOrder(a) && InSequence(s) && Orderly(s) && Accounts(s, a)
    ensures s.queue == [] && s.expected == |a| + 1
  {
    QueueBeyondExpected(s);
    AccountedNumber(s, a, s.expected);
    AccountedNumber(s, a, |a| + 1);
    forall m: Message | m in multiset(a) ensures m.seqNum <= |a| {
      assert m in a;
    }
    PrefixNumber(s.queue + [Num(0)], |s.queue|, 0);
    assert (s.queue + [Num(0)])[..|s.queue|] == s.queue;
  }
}
