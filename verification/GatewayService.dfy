/**
  The hub serving a sequence of calls. Every call is recorded as the step it is, and the hub's heap is always the state
  the recorded run leads to; so the promises of GatewayRuns hold for the hub itself.
*/
module GatewayService {
  import opened Common
  import opened GatewaySpec
  import opened GatewayRuns
  import opened GatewayHub

  lemma {:induction false} RunOneMore<C>(y: System<C>, lim: Limits, steps: seq<Step<C>>, step: Step<C>)
    ensures Run(y, lim, steps + [step]) == Next(Run(y, lim, steps), lim, step)
    decreases |steps|
  {
    if steps == [] {
      assert [step][1..] == [] && [] + [step] == [step];
    } else {
      assert (steps + [step])[1..] == steps[1..] + [step];
      RunOneMore(Next(y, lim, steps[0]), lim, steps[1..], step);
    }
  }

  /** New sessions are the only ones a step adds. */
  lemma SessionsOfStep<C>(y: System<C>, lim: Limits, step: Step<C>, s: Session)
    requires Inv(y, lim) && s in Next(y, lim, step).sent
    ensures s in y.sent || (step.IdentifyStep? && s == step.session)
  {
    if Possible(y, step) && step.DispatchStep? {
      SessionsOfDispatch(y, lim, step.event, step.data, step.order);
    }
  }

  lemma {:induction false} SessionsOfDispatch<C>(y: System<C>, lim: Limits, e: Event, data: nat, order: seq<C>)
    requires forall c :: c in order ==> c in y.g.conns
    ensures DeliveredInOrder(y, lim, e, data, order).sent.Keys == y.sent.Keys
    decreases |order|
  {
    if order != [] {
      SessionsOfDispatch(DeliveredOne(y, lim, e, data, order[0]), lim, e, data, order[1..]);
    }
  }

  /** A new session takes the next number; nothing else makes one. */
  lemma SessionsBelow<C>(y: System<C>, lim: Limits, step: Step<C>, next: Session)
    requires Inv(y, lim) && (forall s :: s in y.sent ==> s < next) && (step.IdentifyStep? ==> step.session == next)
    ensures forall s :: s in Next(y, lim, step).sent ==> s < if step.IdentifyStep? then next + 1 else next
  {
    forall s | s in Next(y, lim, step).sent ensures s < if step.IdentifyStep? then next + 1 else next {
      SessionsOfStep(y, lim, step, s);
    }
  }

  /** The gateway part of a step is the meaning of the handler. */
  lemma IdentifyIsStep<C>(y: System<C>, lim: Limits, c: C, auth: Option<Id>, ready: Option<nat>, s: Session)
    requires c in y.g.conns && s != NO_SESSION && forall r :: r in y.sent ==> r < s
    ensures Next(y, lim, IdentifyStep(c, auth, ready, s)).g == Identify(y.g, lim, c, auth, ready, s)
  {
  }

  lemma DispatchIsStep<C>(y: System<C>, lim: Limits, e: Event, data: nat, targets: set<Id>, viewers: Option<set<Id>>, order: seq<C>)
    requires Inv(y, lim) && Possible(y, DispatchStep(e, data, targets, viewers, order))
    ensures forall c :: c in order ==> c in y.g.conns
    ensures Next(y, lim, DispatchStep(e, data, targets, viewers, order)).g == DeliveredAll(y.g, lim, e, data, order)
  {
    DispatchKeepsInv(y, lim, e, data, order);
  }

  class Service {
    const hub: Hub
    var clients: seq<Client>
    var nextSession: Session
    ghost var steps: seq<Step<Client>>

    ghost function State(): System<Client>
      reads this
    {
      Run(EmptySystem<Client>(), hub.Lim(), steps)
    }

    ghost predicate Valid()
      reads this, hub, hub.sessions, hub.known
    {
      && hub.Valid() && State().g == hub.Abs() && Inv(State(), hub.Lim())
      && nextSession > NO_SESSION && (forall s :: s in State().sent ==> s < nextSession)
      && (forall c :: c in clients ==> c in hub.known)
    }

    constructor (hub: Hub)
      requires hub.Valid() && hub.Abs() == EmptySystem<Client>().g
      ensures Valid() && this.hub == hub && steps == [] && clients == []
    {
      this.hub := hub;
      clients, nextSession, steps := [], 1, [];
      new;
      EmptyGatewayIsConsistent<Client>(hub.Lim());
    }

    /** The history gains the step the hub has just made. */
    ghost method Record(step: Step<Client>, before: System<Client>)
      requires before == State() && Inv(before, hub.Lim())
      requires hub.Valid() && hub.Abs() == Next(before, hub.Lim(), step).g
      requires nextSession > NO_SESSION && (forall s :: s in Next(before, hub.Lim(), step).sent ==> s < nextSession)
      requires forall c :: c in clients ==> c in hub.known
      modifies this`steps
      ensures Valid() && steps == old(steps) + [step]
    {
      RunOneMore(EmptySystem<Client>(), hub.Lim(), steps, step);
      NextKeepsInv(before, hub.Lim(), step);
      steps := steps + [step];
    }

    method Open() returns (client: Client)
      requires Valid()
      modifies this, hub
      ensures Valid() && fresh(client) && clients == old(clients) + [client]
      ensures steps == old(steps) + [Connect(client)]
    {
      ghost var before := State();
      client := hub.Connect();
      clients := clients + [client];
      ghost var step := Connect(client);
      SessionsBelow(before, hub.Lim(), step, nextSession);
      Record(step, before);
    }

    method Identify(client: Client, auth: Option<Id>, ready: Option<nat>)
      requires Valid() && client in clients
      modifies this, hub, hub.known
      ensures Valid() && clients == old(clients)
      ensures steps == old(steps) + [IdentifyStep(client, auth, ready, old(nextSession))]
    {
      ghost var before, step := State(), IdentifyStep(client, auth, ready, nextSession);
      IdentifyIsStep(before, hub.Lim(), client, auth, ready, nextSession);
      SessionsBelow(before, hub.Lim(), step, nextSession);
      hub.HandleIdentify(client, auth, ready, nextSession);
      nextSession := nextSession + 1;
      Record(step, before);
    }

    method Resume(client: Client, auth: Option<Id>, session: Session, k: int)
      requires Valid() && client in clients
      modifies this, hub, hub.known, hub.sessions
      ensures Valid() && clients == old(clients)
      ensures steps == old(steps) + [ResumeStep(client, auth, session, k)]
    {
      ghost var before, step := State(), ResumeStep(client, auth, session, k);
      SessionsBelow(before, hub.Lim(), step, nextSession);
      hub.HandleResume(client, auth, session, k);
      Record(step, before);
    }

    method Close(client: Client)
      requires Valid() && client in clients
      modifies this, hub, hub.sessions
      ensures Valid() && clients == old(clients)
      ensures steps == old(steps) + [DisconnectStep(client)]
    {
      ghost var before, step := State(), DisconnectStep(client);
      SessionsBelow(before, hub.Lim(), step, nextSession);
      hub.Unregister(client);
      Record(step, before);
    }

    method Dispatch(e: Event, data: nat, targetUsers: seq<Id>, channelCheck: Option<Id -> Option<bool>>)
        returns (ghost order: seq<Client>)
      requires Valid()
      modifies this, hub.known, hub.sessions
      ensures Valid() && clients == old(clients)
      ensures steps == old(steps)
                       + [DispatchStep(e, data, Targets(targetUsers), ViewersFor(old(hub.clients).Keys, channelCheck), order)]
    {
      ghost var before, viewers := State(), ViewersFor(hub.clients.Keys, channelCheck);
      order := hub.HandlePubSubEvent(e, data, targetUsers, channelCheck);
      ghost var step := DispatchStep(e, data, Targets(targetUsers), viewers, order);
      DispatchIsStep(before, hub.Lim(), e, data, Targets(targetUsers), viewers, order);
      SessionsBelow(before, hub.Lim(), step, nextSession);
      Record(step, before);
    }
  }

  function Targets(users: seq<Id>): set<Id> { set u | u in users }
}
