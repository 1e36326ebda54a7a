/** The exit handshake between src/emrun_postjs.js and emrun.py: the page numbers and posts its
    output, counts the posts in flight, and posts ^exit^ only when none is left; the network
    delivers requests and responses in any order. */
module EmrunExit {
  import opened EmrunQueue
  import opened EmrunWire
  import opened Sorting

  // An asynchronous request: a printed line, or one the message queue never sees (page load
  // notice, file dump).
  datatype Post = Line(m: Message) | Other(id: nat)

  // The variables of emrun_register_handlers.  A result of true means: post ^exit^ now.
  datatype Page = Page(nextSeq: nat, inFlight: int, shouldClose: bool) {
    // out and err take the next number
    function Number(text: string, toStderr: bool): (Page, Message) {
      (this.(nextSeq := nextSeq + 1), Message(nextSeq, text, toStderr))
    }

    // post
    function Post(): Page {
      this.(inFlight := inFlight + 1)
    }

    // onreadystatechange with readyState 4
    function Completed(): (Page, bool) {
      (this.(inFlight := inFlight - 1), inFlight - 1 == 0 && shouldClose)
    }

    // the function given to addOnExit
    function OnExit(): (Page, bool) {
      if inFlight == 0 then (this, true) else (this.(shouldClose := true), false)
    }
  }

  /** The page's handlers as an object. */
  class EmrunPage {
    var emrunHttpSequenceNumber: nat
    var emrunNumPostMessagesInFlight: int
    var emrunShouldCloseItself: bool

    function View(): Page
      reads this
    {
      Page(emrunHttpSequenceNumber, emrunNumPostMessagesInFlight, emrunShouldCloseItself)
    }

    constructor ()
      ensures View() == Page(1, 0, false)
    {
      emrunHttpSequenceNumber, emrunNumPostMessagesInFlight, emrunShouldCloseItself := 1, 0, false;
    }

    method Print(text: string, toStderr: bool) returns (body: string)
      requires IsBytes(text)
      modifies this
      ensures var (numbered, m) := old(View()).Number(text, toStderr);
        View() == numbered.Post() && body == Body(m)
    {
      body := Body(Message(emrunHttpSequenceNumber, text, toStderr));
      emrunHttpSequenceNumber := emrunHttpSequenceNumber + 1;
      emrunNumPostMessagesInFlight := emrunNumPostMessagesInFlight + 1;
    }

    method Done() returns (postExit: bool)
      modifies this
      ensures (View(), postExit) == old(View()).Completed()
    {
      emrunNumPostMessagesInFlight := emrunNumPostMessagesInFlight - 1;
      postExit := emrunNumPostMessagesInFlight == 0 && emrunShouldCloseItself;
    }

    method OnExit() returns (postExit: bool)
      modifies this
      ensures (View(), postExit) == old(View()).OnExit()
    {
      if emrunNumPostMessagesInFlight == 0 {
        postExit := true;
      } else {
        emrunShouldCloseItself, postExit := true, false;
      }
    }
  }

  // The page, the requests and responses on their way, and the server; printed is everything
  // ever posted by out and err, in order, and atExit how much of it was when ^exit^ was first posted.
  datatype World = World(
    page: Page, hookRan: bool, printed: seq<Message>,
    requests: multiset<Post>, responses: multiset<Post>,
    server: EmrunQueue.State, exited: bool, atExit: nat)

  const START := World(Page(1, 0, false), false, [], multiset{}, multiset{}, EmrunQueue.START, false, 0)

  datatype Event =
    | Out(text: string, toStderr: bool)  // out and err
    | PostOther(id: nat)
    | ExitHook
    | Deliver(p: Post)   // the server handles a request
    | Refuse(p: Post)    // the server has exited and the request fails
    | Complete(p: Post)  // its response, or its failure, reaches the page: readyState 4
    | ServerTimeOut

  function SendPost(s: World, p: Post): World {
    s.(page := s.page.Post(), requests := s.requests + multiset{p})
  }

  // The synchronous ^exit^ request: the server shuts down, flushing its queue.
  function PostExit(s: World): World {
    s.(server := s.server.PrintAll(), exited := true, atExit := if s.exited then s.atExit else |s.printed|)
  }

  // What the server does with a posted line, its text having gone over the wire
  function Handle(server: EmrunQueue.State, m: Message): EmrunQueue.State
    requires m.seqNum >= 0 && IsBytes(m.text)
  {
    match Receive(Body(m))
    case Print(received) => server.Incoming(received)
    case _ => server
  }

  function Apply(s: World, e: Event): World {
    match e
    case Out(text, toStderr) =>
      if !IsBytes(text) then s
      else
        var (page, m) := s.page.Number(text, toStderr);
        SendPost(s.(page := page, printed := s.printed + [m]), Line(m))
    case PostOther(id) => SendPost(s, Other(id))
    case ExitHook =>
      var (page, exit) := s.page.OnExit();
      var s' := s.(page := page, hookRan := true);
      if exit then PostExit(s') else s'
    case Deliver(p) =>
      if p !in s.requests then s
      else
        var s' := s.(requests := s.requests - multiset{p}, responses := s.responses + multiset{p});
        if p.Line? && p.m.seqNum >= 0 && IsBytes(p.m.text) then s'.(server := Handle(s.server, p.m)) else s'
    case Refuse(p) =>
      if p !in s.requests || !s.exited then s
      else s.(requests := s.requests - multiset{p}, responses := s.responses + multiset{p})
    case Complete(p) =>
      if p !in s.responses then s
      else
        var (page, exit) := s.page.Completed();
        var s' := s.(page := page, responses := s.responses - multiset{p});
        if exit then PostExit(s') else s'
    case ServerTimeOut => s.(server := s.server.PrintNext())
  }

  function Run(events: seq<Event>): World {
    if events == [] then START else Apply(Run(events[..|events| - 1]), events[|events| - 1])
  }

  // The line survives the wire; see EmrunWire.PostRoundTrip.
  predicate Survives(m: Message) {
    !HasPercentU(m.text)
  }

  // Line m is on its way, or the server has it, or the server died on it, or, once the server has
  // exited, it may have been refused.
  ghost predicate LineInvariant(s: World, m: Message) {
    var kept := s.requests[Line(m)] + Contents(s.server)[m];
    if !Survives(m) then Contents(s.server)[m] == 0
    else if s.exited then kept <= multiset(s.printed)[m]
    else kept == multiset(s.printed)[m]
  }

  // Every line printed before ^exit^ has been logged.
  ghost predicate ExitInvariant(s: World) {
    && s.atExit <= |s.printed|
    && (s.exited ==> s.hookRan)
    && (s.exited ==> forall i | 0 <= i < s.atExit && Survives(s.printed[i]) :: s.printed[i] in Messages(s.server.log))
  }

  ghost predicate PageInvariant(s: World) {
    && s.page.inFlight == |s.requests| + |s.responses|
    && s.page.nextSeq == |s.printed| + 1
    && (forall i | 0 <= i < |s.printed| :: s.printed[i].seqNum == i + 1 && IsBytes(s.printed[i].text))
    && (forall m | Line(m) in s.requests :: m in s.printed)
    && (s.page.shouldClose ==> s.hookRan)
  }

  // A run of the hook either has told the server to exit or will when the last response comes.
  predicate ExitDue(s: World) {
    s.hookRan ==> s.exited || (s.page.shouldClose && s.page.inFlight != 0)
  }

  ghost predicate LinesInvariant(s: World) {
    forall m :: LineInvariant(s, m)
  }

  ghost predicate Invariant(s: World) {
    PageInvariant(s) && ExitInvariant(s) && LinesInvariant(s) && ExitDue(s)
  }

  // Messages that a server logs or queues, and that it has logged already, stay.
  ghost predicate Extends(server: EmrunQueue.State, server': EmrunQueue.State) {
    server.log <= server'.log
  }

  lemma {:induction false} PrintDueExtends(server: EmrunQueue.State)
    ensures Extends(server, server.PrintDue())
    decreases |server.queue|
  {
    if server.HeadIsDue() {
      var head := Logged(server.queue[0], Due);
      PrintDueExtends(EmrunQueue.State(server.expected + 1, server.queue[1..], server.log + [head]));
    }
  }

  lemma PrintNextExtends(server: EmrunQueue.State)
    ensures Extends(server, server.PrintNext())
  {
    if server.queue != [] {
      PrintDueExtends(server.(expected := server.queue[0].seqNum));
    }
  }

  lemma {:induction false} PrintAllExtends(server: EmrunQueue.State)
    ensures Extends(server, server.PrintAll())
    decreases |server.queue|
  {
    if server.queue != [] {
      PrintNextExtends(server);
      PrintAllExtends(server.PrintNext());
    }
  }

  lemma HandleExtends(server: EmrunQueue.State, m: Message)
    requires m.seqNum >= 0 && IsBytes(m.text)
    ensures Extends(server, Handle(server, m))
  {
    PostRoundTrip(m);
    IncomingExtends(server, m);
    hide Receive, Body, HasPercentU;
  }

  lemma IncomingExtends(server: EmrunQueue.State, m: Message)
    ensures Extends(server, server.Incoming(m))
  {
    hide Sort;
    PrintDueExtends(server.Log(m, Due).(expected := server.expected + 1));
    PrintNextExtends(server.(queue := Sort(BySeqNum, server.queue + [m])));
  }

  lemma ExtendsKeepsLogged(server: EmrunQueue.State, server': EmrunQueue.State, m: Message)
    requires Extends(server, server') && m in Messages(server.log)
    ensures m in Messages(server'.log)
  {
    var i :| 0 <= i < |server.log| && Messages(server.log)[i] == m;
    assert Messages(server'.log)[i] == m;
  }

  // A step that only adds to the log keeps what was logged before the exit.
  lemma KeepsExitInvariant(s: World, t: World)
    requires ExitInvariant(s) && Extends(s.server, t.server)
    requires t.atExit == s.atExit && t.exited == s.exited && s.printed <= t.printed && (s.hookRan ==> t.hookRan)
    ensures ExitInvariant(t)
  {
    if t.exited {
      forall i | 0 <= i < t.atExit && Survives(t.printed[i]) ensures t.printed[i] in Messages(t.server.log) {
        assert t.printed[i] == s.printed[i];
        ExtendsKeepsLogged(s.server, t.server, s.printed[i]);
      }
    }
  }

  lemma FlushLogs(s: World, i: nat)
    requires LinesInvariant(s) && !s.exited && s.requests == multiset{} && i < |s.printed| && Survives(s.printed[i])
    ensures s.printed[i] in Messages(s.server.PrintAll().log)
  {
    PrintAllConserves(s.server);
    var m := s.printed[i];
    assert LineInvariant(s, m);
    assert m in multiset(s.printed);
    assert m in multiset(Messages(s.server.PrintAll().log));
  }

  // A step that moves no line between the network and the server
  lemma SameLines(s: World, t: World)
    requires LinesInvariant(s) && Contents(t.server) == Contents(s.server) && t.printed == s.printed
    requires t.requests == s.requests && (s.exited ==> t.exited)
    ensures LinesInvariant(t)
  {
    hide Contents;
    forall m ensures LineInvariant(t, m) {
      assert LineInvariant(s, m);
    }
  }

  lemma PostExitKeepsInvariant(s: World)
    requires PageInvariant(s) && ExitInvariant(s) && LinesInvariant(s) && s.hookRan && s.page.inFlight == 0
    ensures Invariant(PostExit(s))
  {
    var t := PostExit(s);
    PrintAllConserves(s.server);
    SameLines(s, t);
    PrintAllExtends(s.server);
    hide LinesInvariant;
    if s.exited {
      KeepsExitInvariant(s, t);
    } else {
      forall i | 0 <= i < |s.printed| && Survives(s.printed[i]) ensures s.printed[i] in Messages(t.server.log) {
        FlushLogs(s, i);
      }
    }
  }

  lemma HandleAdds(server: EmrunQueue.State, m: Message)
    requires m.seqNum >= 0 && IsBytes(m.text)
    ensures Contents(Handle(server, m)) == Contents(server) + (if Survives(m) then multiset{m} else multiset{})
  {
    PostRoundTrip(m);
    if Survives(m) {
      IncomingConserves(server, m);
    }
  }

  lemma DeliverKeepsLines(s: World, p: Post)
    requires LinesInvariant(s) && p in s.requests
    requires p.Line? ==> p.m.seqNum >= 0 && IsBytes(p.m.text)
    ensures LinesInvariant(Apply(s, Deliver(p)))
  {
    var t := Apply(s, Deliver(p));
    if p.Line? {
      HandleAdds(s.server, p.m);
    }
    assert t.server == if p.Line? then Handle(s.server, p.m) else s.server;
    assert t.requests == s.requests - multiset{p} && t.printed == s.printed && t.exited == s.exited;
    hide Apply, Contents, Handle;
    forall m ensures LineInvariant(t, m) {
      assert LineInvariant(s, m);
    }
  }

  lemma DeliverKeepsInvariant(s: World, p: Post)
    requires Invariant(s) && p in s.requests
    ensures Invariant(Apply(s, Deliver(p)))
  {
    hide LinesInvariant, Receive, Handle;
    var t := Apply(s, Deliver(p));
    if p.Line? {
      assert s.printed != [] && p.m.seqNum >= 0 && IsBytes(p.m.text);
      HandleExtends(s.server, p.m);
    }
    DeliverKeepsLines(s, p);
    KeepsExitInvariant(s, t);
    assert |t.requests| == |s.requests| - 1;
  }

  lemma RefuseKeepsInvariant(s: World, p: Post)
    requires Invariant(s) && p in s.requests && s.exited
    ensures Invariant(Apply(s, Refuse(p)))
  {
    hide Contents;
    var t := Apply(s, Refuse(p));
    forall m ensures LineInvariant(t, m) {
      assert LineInvariant(s, m);
    }
    KeepsExitInvariant(s, t);
    assert |t.requests| == |s.requests| - 1;
  }

  lemma CompleteKeepsPage(s: World, p: Post)
    requires PageInvariant(s) && p in s.responses
    ensures PageInvariant(s.(page := s.page.Completed().0, responses := s.responses - multiset{p}))
  {
    assert |s.responses - multiset{p}| == |s.responses| - 1;
  }

  lemma CompleteKeepsInvariant(s: World, p: Post)
    requires Invariant(s) && p in s.responses
    ensures Invariant(Apply(s, Complete(p)))
  {
    var t := s.(page := s.page.Completed().0, responses := s.responses - multiset{p});
    SameLines(s, t);
    KeepsExitInvariant(s, t);
    CompleteKeepsPage(s, p);
    assert s.page.shouldClose ==> s.hookRan;
    hide LinesInvariant, PageInvariant, ExitInvariant;
    if t.page.inFlight == 0 && t.page.shouldClose {
      PostExitKeepsInvariant(t);
    }
  }

  lemma OutKeepsLines(s: World, text: string, toStderr: bool)
    requires LinesInvariant(s)
    ensures LinesInvariant(Apply(s, Out(text, toStderr)))
  {
    hide Contents;
    var t := Apply(s, Out(text, toStderr));
    forall m ensures LineInvariant(t, m) {
      assert LineInvariant(s, m);
    }
  }

  lemma OutKeepsInvariant(s: World, text: string, toStderr: bool)
    requires Invariant(s) && IsBytes(text)
    ensures Invariant(Apply(s, Out(text, toStderr)))
  {
    hide LinesInvariant;
    OutKeepsLines(s, text, toStderr);
    KeepsExitInvariant(s, Apply(s, Out(text, toStderr)));
  }

  lemma PostOtherKeepsInvariant(s: World, id: nat)
    requires Invariant(s)
    ensures Invariant(Apply(s, PostOther(id)))
  {
    hide Contents;
    var t := Apply(s, PostOther(id));
    forall m ensures LineInvariant(t, m) {
      assert LineInvariant(s, m);
    }
    KeepsExitInvariant(s, t);
  }

  lemma ExitHookKeepsInvariant(s: World)
    requires Invariant(s)
    ensures Invariant(Apply(s, ExitHook))
  {
    var t := s.(page := s.page.OnExit().0, hookRan := true);
    SameLines(s, t);
    hide LinesInvariant, Contents;
    KeepsExitInvariant(s, t);
    if s.page.inFlight == 0 {
      PostExitKeepsInvariant(t);
    }
  }

  lemma TimeOutKeepsInvariant(s: World)
    requires Invariant(s)
    ensures Invariant(Apply(s, ServerTimeOut))
  {
    PrintNextConserves(s.server);
    PrintNextExtends(s.server);
    ServerKeepsInvariant(s, s.server.PrintNext());
  }

  lemma ServerKeepsInvariant(s: World, server: EmrunQueue.State)
    requires Invariant(s) && Contents(server) == Contents(s.server) && Extends(s.server, server)
    ensures Invariant(s.(server := server))
  {
    var t := s.(server := server);
    SameLines(s, t);
    KeepsExitInvariant(s, t);
    hide LinesInvariant, ExitInvariant;
  }

  lemma ApplyKeepsInvariant(s: World, e: Event)
    requires Invariant(s)
    ensures Invariant(Apply(s, e))
  {
    hide Invariant;
    match e
    case Out(text, toStderr) =>
      if IsBytes(text) {
        OutKeepsInvariant(s, text, toStderr);
      }
    case PostOther(id) => PostOtherKeepsInvariant(s, id);
    case ExitHook => ExitHookKeepsInvariant(s);
    case Deliver(p) =>
      if p in s.requests {
        DeliverKeepsInvariant(s, p);
      }
    case Refuse(p) =>
      if p in s.requests && s.exited {
        RefuseKeepsInvariant(s, p);
      }
    case Complete(p) =>
      if p in s.responses {
        CompleteKeepsInvariant(s, p);
      }
    case ServerTimeOut => TimeOutKeepsInvariant(s);
  }

  lemma {:induction false} RunKeepsInvariant(events: seq<Event>)
    ensures Invariant(Run(events))
  {
    if events == [] {
      StartIsInvariant();
    } else {
      hide Invariant, Apply;
      RunKeepsInvariant(events[..|events| - 1]);
      ApplyKeepsInvariant(Run(events[..|events| - 1]), events[|events| - 1]);
    }
  }

  lemma StartIsInvariant()
    ensures Invariant(START)
  {
    assert Messages([]) == [];
  }

  lemma NumberedAppearOnce(printed: seq<Message>, i: nat)
    requires forall k | 0 <= k < |printed| :: printed[k].seqNum == k + 1
    requires i < |printed|
    ensures multiset(printed)[printed[i]] == 1
  {
    assert printed == printed[..i] + [printed[i]] + printed[i + 1..];
    assert printed[i] !in printed[..i];
    assert printed[i] !in printed[i + 1..];
  }

  // Event e makes the page post ^exit^.
  predicate PostsExit(s: World, e: Event) {
    match e
    case ExitHook => s.page.OnExit().1
    case Complete(p) => p in s.responses && s.page.Completed().1
    case _ => false
  }

  /** When ^exit^ is posted, whatever the order of delivery, nothing is on its way in either
      direction, and the server's queue is empty once it is processed; the first time, everything
      printed so far was printed before the exit. */
  lemma ExitFindsNothingInFlight(events: seq<Event>, e: Event)
    requires PostsExit(Run(events), e)
    ensures var s, t := Run(events), Apply(Run(events), e);
      && t.requests == t.responses == multiset{} && t.server.queue == [] && t.exited
      && (!s.exited ==> t.atExit == |t.printed|)
  {
    RunKeepsInvariant(events);
    hide LinesInvariant, ExitInvariant;
    var s := Run(events);
    PrintAllConserves(s.server);
    if e.Complete? {
      assert |s.responses - multiset{e.p}| == |s.responses| - 1;
    }
  }

  /** End to end, whatever the order of delivery and whatever is printed later: after the exit every
      line printed before ^exit^ was posted has been logged exactly once, or not at all if its text
      contains "%u"; and nothing is logged that was not printed. */
  lemma ExitMeansAllLogged(events: seq<Event>, i: nat)
    requires Run(events).exited && i < Run(events).atExit
    ensures var s := Run(events);
      && i < |s.printed|
      && multiset(Messages(s.server.log))[s.printed[i]] == (if HasPercentU(s.printed[i].text) then 0 else 1)
      && (forall l | l in Messages(s.server.log) :: l in s.printed)
  {
    RunKeepsInvariant(events);
    var s := Run(events);
    hide Run;
    NumberedAppearOnce(s.printed, i);
    assert LineInvariant(s, s.printed[i]);
    assert Survives(s.printed[i]) ==> s.printed[i] in multiset(Messages(s.server.log));
    forall l | l in Messages(s.server.log) ensures l in s.printed {
      assert l in Contents(s.server);
      assert LineInvariant(s, l);
      assert l in multiset(s.printed);
    }
  }

  // The hook has run exactly if it is among the events.
  lemma {:induction false} HookRanIff(events: seq<Event>)
    ensures Run(events).hookRan <==> ExitHook in events
  {
    hide Apply;
    if events != [] {
      var front, e := events[..|events| - 1], events[|events| - 1];
      HookRanIff(front);
      HookRanNext(Run(front), e);
      assert events == front + [e];
    }
  }

  lemma HookRanNext(s: World, e: Event)
    ensures Apply(s, e).hookRan <==> s.hookRan || e == ExitHook
  {
    hide Handle;
  }

  /** The exit request is not forgotten: if the hook is among the events and nothing is in flight any
      more, the server has been told to exit; and it never is before the hook. */
  lemma ExitHappens(events: seq<Event>)
    ensures ExitHook in events && Run(events).requests == Run(events).responses == multiset{} ==> Run(events).exited
    ensures Run(events).exited ==> ExitHook in events
  {
    RunKeepsInvariant(events);
    HookRanIff(events);
  }

  // ---- What the events print and deliver ----

  // The lines that out and err are called with, in order
  function Lines(events: seq<Event>): seq<(string, bool)> {
    if events == [] then []
    else
      var last := events[|events| - 1];
      Lines(events[..|events| - 1]) + (if last.Out? && IsBytes(last.text) then [(last.text, last.toStderr)] else [])
  }

  /** What is posted is what out and err are called with, in order, on the stream they stand for, and
      numbered 1, 2, ... */
  lemma {:induction false} PrintedAreLines(events: seq<Event>)
    ensures var printed, lines := Run(events).printed, Lines(events);
      && |printed| == |lines| && Run(events).page.nextSeq == |lines| + 1
      && forall i | 0 <= i < |lines| :: printed[i] == Message(i + 1, lines[i].0, lines[i].1)
  {
    if events != [] {
      var front, e := events[..|events| - 1], events[|events| - 1];
      PrintedAreLines(front);
      PrintedNext(Run(front), e);
      hide Apply;
    }
  }

  lemma PrintedNext(s: World, e: Event)
    ensures var t := Apply(s, e);
      if e.Out? && IsBytes(e.text)
      then
        && t.printed == s.printed + [Message(s.page.nextSeq, e.text, e.toStderr)]
        && t.page.nextSeq == s.page.nextSeq + 1
      else t.printed == s.printed && t.page.nextSeq == s.page.nextSeq
  {
    hide Handle;
  }

  lemma RunNext(events: seq<Event>, e: Event)
    ensures Run(events + [e]) == Apply(Run(events), e)
  {
    hide Apply;
    assert (events + [e])[..|events|] == events;
  }

  lemma DeliveredOne(s: World, p: Post)
    requires p in s.requests
    ensures var t := Apply(s, Deliver(p));
      t.requests == s.requests - multiset{p} && t.responses == s.responses + multiset{p}
  {
    hide Handle;
  }

  lemma CompletedOne(s: World, p: Post)
    requires p in s.responses
    ensures var t := Apply(s, Complete(p)); t.requests == s.requests && t.responses == s.responses - multiset{p}
  {
    hide Handle;
  }

  // Delivering and completing what is in flight empties the network.
  lemma {:induction false} Drains(events: seq<Event>) returns (more: seq<Event>)
    ensures Run(events + more).requests == Run(events + more).responses == multiset{}
    ensures forall e | e in more :: e.Deliver? || e.Complete?
    decreases 2 * |Run(events).requests| + |Run(events).responses|
  {
    hide Apply, Run;
    var s := Run(events);
    if s.requests == s.responses == multiset{} {
      more := [];
      assert events + more == events;
    } else {
      var e: Event;
      if s.requests != multiset{} {
        var p :| p in s.requests;
        e := Deliver(p);
        DeliveredOne(s, p);
        assert |s.requests - multiset{p}| == |s.requests| - 1;
      } else {
        var p :| p in s.responses;
        e := Complete(p);
        CompletedOne(s, p);
        assert |s.responses - multiset{p}| == |s.responses| - 1;
      }
      RunNext(events, e);
      var rest := Drains(events + [e]);
      more := [e] + rest;
      assert events + more == events + [e] + rest;
    }
  }

  /** Whatever happened, once the network delivers what is in flight a page that has run its hook
      brings the server to exit, with every line printed by then logged or lost to "%u". */
  lemma DeliveryLeadsToExit(events: seq<Event>) returns (more: seq<Event>)
    requires ExitHook in events
    ensures Run(events + more).exited && (forall e | e in more :: e.Deliver? || e.Complete?)
    ensures !Run(events).exited ==> Run(events + more).atExit == |Lines(events)|
  {
    more := Drains(events);
    ExitHappens(events + more);
    if !Run(events).exited {
      ExitCountsAll(events, more);
    }
  }

  // Nothing is printed by deliveries, so the first exit among them counts every line.
  lemma {:induction false} ExitCountsAll(events: seq<Event>, more: seq<Event>)
    requires !Run(events).exited && forall e | e in more :: e.Deliver? || e.Complete?
    ensures |Run(events + more).printed| == |Lines(events)|
    ensures Run(events + more).exited ==> Run(events + more).atExit == |Lines(events)|
  {
    hide Run, Apply;
    if more == [] {
      assert events + more == events;
      PrintedAreLines(events);
    } else {
      var front, e := more[..|more| - 1], more[|more| - 1];
      assert more == front + [e] && events + more == events + front + [e];
      ExitCountsAll(events, front);
      RunNext(events + front, e);
      DeliveryCounts(Run(events + front), e);
    }
  }

  lemma DeliveryCounts(s: World, e: Event)
    requires e.Deliver? || e.Complete?
    ensures var t := Apply(s, e);
      t.printed == s.printed && (t.exited ==> t.atExit == if s.exited then s.atExit else |s.printed|)
  {
    hide Handle;
  }
}
