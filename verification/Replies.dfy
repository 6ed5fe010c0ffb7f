/** The control socket's request and reply over the event queue: each answer reaches the connection
    that asked, is its own request's result, and is computed once. */
module Replies {
  import opened Basics
  import opened Events
  import opened Dispatcher
  import opened DoorSystem
  import ConfigFile
  import DoorSensor
  import Uid

  /** Each connection is sent at most one answer, and `conn` none yet. */
  ghost predicate NotAnswered(sent: seq<Sent>, conn: nat) {
    forall i :: 0 <= i < |sent| ==> sent[i].conn != conn
  }

  ghost predicate AnsweredOnce(sent: seq<Sent>) {
    forall i, j :: 0 <= i < j < |sent| ==> sent[i].conn != sent[j].conn
  }

  ghost predicate NotExecuted(executed: seq<Exec>, conn: nat) {
    forall i :: 0 <= i < |executed| ==> executed[i].conn != conn
  }

  ghost predicate ExecutedOnce(executed: seq<Exec>) {
    forall i, j :: 0 <= i < j < |executed| ==> executed[i].conn != executed[j].conn
  }

  ghost predicate SocketInv(s: System) {
    && (forall c :: c in s.h.accepted ==> c < s.nextConn)
    && (forall i :: 0 <= i < |s.h.sent| ==> s.h.sent[i].conn < s.nextConn)
    && AnsweredOnce(s.h.sent)
    && match s.socket
       case Idle => true
       case Serving(c) => c < s.nextConn && c !in s.h.accepted && NotAnswered(s.h.sent, c)
       case Awaiting(c, _) => c in s.h.accepted && NotAnswered(s.h.sent, c)
  }

  /** A queued request is the one its connection submitted; it is queued once, not executed yet, and
      its reply slot is empty. */
  ghost predicate QueueInv(s: System) {
    && s.slots.Keys == s.h.accepted.Keys
    && (forall i :: 0 <= i < |s.queue| && s.queue[i].WebCommand? ==>
          var c := s.queue[i].conn;
          && c in s.h.accepted && s.h.accepted[c] == s.queue[i].request
          && s.slots[c].None? && NotExecuted(s.h.executed, c))
    && (forall i, j :: 0 <= i < j < |s.queue| && s.queue[i].WebCommand? && s.queue[j].WebCommand? ==>
          s.queue[i].conn != s.queue[j].conn)
  }

  ghost predicate ExecInv(s: System) {
    && s.h.fullReplies == 0
    && ExecutedOnce(s.h.executed)
    && (forall i :: 0 <= i < |s.h.executed| ==>
          var x := s.h.executed[i];
          && x.conn in s.h.accepted && s.h.accepted[x.conn] == x.request && x.request.Object?
          && x.conn in s.slots && s.slots[x.conn] == Some(x.response))
    && (forall c :: c in s.slots && s.slots[c].Some? && c in s.h.accepted ==>
          Exec(c, s.h.accepted[c], s.slots[c].value) in s.h.executed)
  }

  ghost predicate SentInv(s: System) {
    forall i :: 0 <= i < |s.h.sent| ==>
      var c := s.h.sent[i].conn;
      match s.h.sent[i].answer
      case Result(response) => c in s.h.accepted && Exec(c, s.h.accepted[c], response) in s.h.executed
      case ServiceTimeout => c in s.h.accepted
      case _ => c !in s.h.accepted
  }

  ghost predicate Inv(s: System) {
    SocketInv(s) && QueueInv(s) && ExecInv(s) && SentInv(s)
  }

  /** A step that leaves the socket alone and queues at most one event that is not a request. */
  ghost predicate Elsewhere(s: System, t: System) {
    && t.socket == s.socket && t.nextConn == s.nextConn && t.slots == s.slots
    && t.h.accepted == s.h.accepted && t.h.executed == s.h.executed && t.h.sent == s.h.sent
    && t.h.fullReplies == s.h.fullReplies
    && (t.queue == s.queue || exists e: Event :: !e.WebCommand? && t.queue == Put(s.queue, e))
  }

  lemma ElsewhereKeepsInv(s: System, t: System)
    requires Inv(s) && Elsewhere(s, t)
    ensures Inv(t)
  {
  }

  lemma SubmitKeepsInv(s: System, request: Request)
    requires Inv(s) && s.socket.Serving?
    ensures Inv(SubmitRequest(s, request))
  {
    var c, t := s.socket.conn, SubmitRequest(s, request);
    if |s.queue| < QUEUE_CAPACITY {
      assert NotExecuted(s.h.executed, c);
      assert forall i :: 0 <= i < |s.queue| && s.queue[i].WebCommand? ==> s.queue[i].conn != c;
    }
  }

  lemma AnswerKeepsInv(s: System, a: Action)
    requires Inv(s) && Enabled(s, a) && (a.Refuse? || a.Reply? || a.GiveUp? || a.Accept? || a.HangUp?)
    ensures Inv(Next(s, a))
  {
  }

  lemma OtherDispatchKeepsInv(s: System, fault: Option<ConfigFile.Step>, logFails: bool)
    requires Inv(s) && s.phase.Waiting? && s.queue != []
    requires !s.queue[0].WebCommand? || s.queue[0].request.NotAnObject?
    ensures Inv(DispatchHead(s, fault, logFails))
  {
    var t := DispatchHead(s, fault, logFails);
    assert t.h.executed == s.h.executed && t.slots == s.slots;
    assert forall i :: 0 <= i < |t.queue| ==> t.queue[i] == s.queue[i + 1];
  }

  /** `t` follows `s` by executing the request at the head of the queue as `x`. */
  predicate Executes(s: System, t: System, x: Exec) {
    && s.queue != [] && s.queue[0] == WebCommand(x.request, x.conn) && x.request.Object?
    && t.queue == s.queue[1..] && t.h.executed == s.h.executed + [x]
    && x.conn in s.slots && t.slots == s.slots[x.conn := Some(x.response)]
    && t.socket == s.socket && t.nextConn == s.nextConn && t.h.accepted == s.h.accepted && t.h.sent == s.h.sent
    && t.h.fullReplies == s.h.fullReplies
  }

  lemma ExecutionKeepsQueue(s: System, t: System, x: Exec)
    requires Inv(s) && Executes(s, t, x)
    ensures QueueInv(t)
  {
    assert forall i :: 0 <= i < |t.queue| ==> t.queue[i] == s.queue[i + 1];
  }

  lemma ExecutionKeepsExecuted(s: System, t: System, x: Exec)
    requires Inv(s) && Executes(s, t, x)
    ensures ExecInv(t) && SentInv(t)
  {
    assert NotExecuted(s.h.executed, x.conn);
    assert x in t.h.executed;
    assert forall y :: y in s.h.executed ==> y in t.h.executed;
  }

  lemma CommandKeepsInv(s: System, fault: Option<ConfigFile.Step>, logFails: bool)
    requires Inv(s) && s.phase.Waiting? && s.queue != [] && s.queue[0].WebCommand? && s.queue[0].request.Object?
    ensures Inv(DispatchHead(s, fault, logFails))
  {
    var e, t := s.queue[0], DispatchHead(s, fault, logFails);
    var response := Dispatch(s.door, e, Env(s.now, fault, logFails)).1.value;
    var x := Exec(e.conn, e.request, response);
    ExecutionKeepsQueue(s, t, x);
    ExecutionKeepsExecuted(s, t, x);
  }

  lemma StepKeepsInv(s: System, a: Action)
    requires Inv(s) && Enabled(s, a)
    ensures Inv(Next(s, a))
  {
    var t := Next(s, a);
    if a.Submit? {
      SubmitKeepsInv(s, a.request);
    } else if a.DispatchNext? {
      if s.queue[0].WebCommand? && s.queue[0].request.Object? {
        CommandKeepsInv(s, a.fault, a.logFails);
      } else {
        OtherDispatchKeepsInv(s, a.fault, a.logFails);
      }
    } else if a.Refuse? || a.Reply? || a.GiveUp? || a.Accept? || a.HangUp? {
      AnswerKeepsInv(s, a);
    } else {
      OtherStep(s, a);
      ElsewhereKeepsInv(s, t);
    }
  }

  lemma OtherStep(s: System, a: Action)
    requires Enabled(s, a) && !a.Submit? && !a.DispatchNext?
    requires !(a.Refuse? || a.Reply? || a.GiveUp? || a.Accept? || a.HangUp?)
    ensures Elsewhere(s, Next(s, a))
  {
    StepFrame(s, a);
  }

  lemma {:induction false} RunKeepsInv(s: System, actions: seq<Action>, t: System)
    requires Inv(s) && Run(s, actions, t)
    ensures Inv(t)
    decreases |actions|
  {
    if actions != [] {
      StepKeepsInv(s, actions[0]);
      RunKeepsInv(Next(s, actions[0]), actions[1..], t);
    }
  }

  /** In every reachable state: no connection has two answers; a dispatcher's result went only to the
      connection whose request it is the result of, and that request was executed exactly once, before
      the answer; a refused or busy connection's request was never queued or executed; a request that
      is not an object was never answered with a result; and no reply ever found its slot full. */
  lemma AnswersAreOwn(s: System, setup: seq<real>, actions: seq<Action>, t: System)
    requires Init(s, setup) && Run(s, actions, t)
    ensures AnsweredOnce(t.h.sent) && ExecutedOnce(t.h.executed) && t.h.fullReplies == 0
    ensures forall i :: 0 <= i < |t.h.sent| && t.h.sent[i].answer.Result? ==>
              var c := t.h.sent[i].conn;
              && c in t.h.accepted && t.h.accepted[c].Object?
              && Exec(c, t.h.accepted[c], t.h.sent[i].answer.response) in t.h.executed
    ensures forall i :: 0 <= i < |t.h.sent| && (t.h.sent[i].answer.Refused? || t.h.sent[i].answer.Busy?) ==>
              var c := t.h.sent[i].conn;
              && NotExecuted(t.h.executed, c)
              && forall j :: 0 <= j < |t.queue| && t.queue[j].WebCommand? ==> t.queue[j].conn != c
  {
    RunKeepsInv(s, actions, t);
  }

  /** In every reachable state the result of the request dispatched next goes into its connection's own reply
      slot, and if that connection still waits it is what it can be sent at once. */
  lemma ResultIsDelivered(s: System, setup: seq<real>, before: seq<Action>, u: System, fault: Option<ConfigFile.Step>, logFails: bool)
    requires Init(s, setup) && Run(s, before, u)
    requires u.phase.Waiting? && u.queue != [] && u.queue[0].WebCommand? && u.queue[0].request.Object?
    ensures var e, t := u.queue[0], DispatchHead(u, fault, logFails);
            var result := Dispatch(u.door, e, Env(u.now, fault, logFails)).1.value;
            && e.conn in t.slots && t.slots[e.conn] == Some(result)
            && (t.socket.Awaiting? && t.socket.conn == e.conn ==>
                  Enabled(t, Reply) && Next(t, Reply).h.sent == t.h.sent + [Sent(e.conn, Result(result))] && Next(t, Reply).socket.Idle?)
  {
    SlotIsEmpty(s, setup, before, u);
  }

  lemma SlotIsEmpty(s: System, setup: seq<real>, before: seq<Action>, u: System)
    requires Init(s, setup) && Run(s, before, u) && u.queue != [] && u.queue[0].WebCommand?
    ensures SlotFree(u, u.queue[0])
  {
    RunKeepsInv(s, before, u);
    assert u.queue[0].conn in u.h.accepted;
  }

  /** What an execution computes is the dispatch of the connection's own request at that moment. */
  lemma ExecutionIsDispatch(s: System, fault: Option<ConfigFile.Step>, logFails: bool)
    requires s.phase.Waiting? && s.queue != []
    ensures var e, t := s.queue[0], DispatchHead(s, fault, logFails);
            var response := Dispatch(s.door, e, Env(s.now, fault, logFails)).1;
            && (response.Some? ==> t.h.executed == s.h.executed + [Exec(e.conn, e.request, response.value)])
            && (response.None? ==> t.h.executed == s.h.executed)
            && (response.Some? <==> e.WebCommand? && e.request.Object?)
  {
  }
}
