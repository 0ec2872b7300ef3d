/** The two-finalizer handshake by which a device under deletion is told to
    disconnect, with polls whose read and patch are separate steps. */
module Lifecycle {
  import opened Kube
  import opened Placement
  import opened DeploymentReconcile

  const CONNECTION := "yggdrasil-connection-finalizer"
  const WORKLOAD := "yggdrasil-workload-finalizer"

  datatype Kind = Data | Control

  /** A poll that has read the device and is about to send its patch. */
  datatype Poll = Poll(kind: Kind, seen: seq<string>)

  /** What an outsider can observe: the workload finalizer leaving the store, and the
      disconnect command leaving the server. */
  datatype Event = WorkloadRemoved | Disconnected

  /** One incarnation of a device. A strict API server refuses to add finalizers to an
      object under deletion, as Kubernetes does; nothing in the repository says so. */
  datatype State = State(
    strict: bool, gone: bool, deleting: bool, finalizers: seq<string>, polls: seq<Poll>, log: seq<Event>)

  datatype Action =
    | StartPoll(kind: Kind)
    | FinishPoll(i: nat, reply: Reply)
    | RequestDeletion
    | AddForeign(f: string)
    | DropForeign(f: string)

  function Registered(strict: bool): State {
    State(strict, false, false, [CONNECTION, WORKLOAD], [], [])
  }

  predicate Foreign(f: string) {
    f != CONNECTION && f != WORKLOAD
  }

  /** Other controllers manage finalizers of their own, and add none to a device
      under deletion. */
  predicate Legal(s: State, x: Action) {
    match x
    case StartPoll(_) => true
    case FinishPoll(i, _) => i < |s.polls|
    case RequestDeletion => true
    case AddForeign(f) => Foreign(f) && !s.deleting
    case DropForeign(f) => Foreign(f)
  }

  /** A device under deletion disappears with its last finalizer. */
  function Settle(s: State): State {
    if s.deleting && s.finalizers == [] then s.(gone := true) else s
  }

  function Mine(kind: Kind): string {
    if kind.Data? then WORKLOAD else CONNECTION
  }

  /** The read of a handler. Only a device under deletion is patched: for its workload
      finalizer by a data poll, and once that is gone, for its connection finalizer
      by a control poll. With neither left, the command is issued at once. */
  function Start(s: State, kind: Kind): State {
    if s.gone || !s.deleting then s
    else match kind
      case Data =>
        if WORKLOAD in s.finalizers then s.(polls := s.polls + [Poll(Data, s.finalizers)]) else s
      case Control =>
        if WORKLOAD in s.finalizers then s
        else if CONNECTION in s.finalizers then s.(polls := s.polls + [Poll(Control, s.finalizers)])
        else s.(log := s.log + [Disconnected])
  }

  predicate Refused(s: State, finalizers: seq<string>) {
    s.strict && s.deleting && exists f :: f in finalizers && f !in s.finalizers
  }

  /** The merge patch replaces the whole list by what the poll had seen, less its own
      finalizer. Nobody learns whether it failed. */
  function Patched(s: State, p: Poll, reply: Reply): State {
    var finalizers := WithoutFinalizer(p.seen, Mine(p.kind));
    if s.gone || reply == Rejected || Refused(s, finalizers) then s
    else
      var log := if WORKLOAD in s.finalizers && WORKLOAD !in finalizers then s.log + [WorkloadRemoved] else s.log;
      Settle(s.(finalizers := finalizers, log := log))
  }

  function Finish(s: State, i: nat, reply: Reply): State
    requires i < |s.polls|
  {
    var p := s.polls[i];
    var r := Patched(s.(polls := s.polls[..i] + s.polls[i + 1..]), p, reply);
    if p.kind.Control? then r.(log := r.log + [Disconnected]) else r
  }

  function Next(s: State, x: Action): State
    requires Legal(s, x)
  {
    match x
    case StartPoll(kind) => Start(s, kind)
    case FinishPoll(i, reply) => Finish(s, i, reply)
    case RequestDeletion => Settle(s.(deleting := true))
    case AddForeign(f) => if s.gone then s else s.(finalizers := s.finalizers + [f])
    case DropForeign(f) => if s.gone then s else Settle(s.(finalizers := WithoutFinalizer(s.finalizers, f)))
  }

  // ------------------------------------------------------------------- invariant

  predicate PollInv(p: Poll) {
    && CONNECTION in p.seen
    && (p.kind.Data? <==> WORKLOAD in p.seen)
  }

  predicate LogInv(log: seq<Event>) {
    forall i :: 0 <= i < |log| && log[i] == Disconnected ==> WorkloadRemoved in log[..i]
  }

  predicate Inv(s: State) {
    && (s.gone ==> s.deleting && s.finalizers == [])
    && (s.deleting && !s.gone ==> s.finalizers != [])
    && (!s.deleting ==> WORKLOAD in s.finalizers && s.polls == [])
    && (WORKLOAD in s.finalizers ==> CONNECTION in s.finalizers)
    && (WORKLOAD !in s.finalizers ==> WorkloadRemoved in s.log)
    && (forall p :: p in s.polls ==> PollInv(p) && (p.kind.Control? ==> WORKLOAD !in s.finalizers))
    && LogInv(s.log)
  }

  lemma LogGrows(log: seq<Event>, e: Event)
    requires LogInv(log) && (e == Disconnected ==> WorkloadRemoved in log)
    ensures LogInv(log + [e]) && (WorkloadRemoved in log ==> WorkloadRemoved in log + [e])
  {
    forall i | 0 <= i < |log| ensures (log + [e])[..i] == log[..i] {}
    assert (log + [e])[..|log|] == log;
  }

  lemma FinishKeepsInv(s: State, i: nat, reply: Reply)
    requires Inv(s) && i < |s.polls|
    ensures Inv(Finish(s, i, reply))
    ensures WORKLOAD !in s.finalizers ==> WORKLOAD !in Finish(s, i, reply).finalizers
  {
    var p := s.polls[i];
    assert p in s.polls;
    var rest := s.polls[..i] + s.polls[i + 1..];
    forall q | q in rest ensures q in s.polls {}
    LogGrows(s.log, WorkloadRemoved);
    var r := Patched(s.(polls := rest), p, reply);
    assert Inv(r);
    if p.kind.Control? {
      LogGrows(r.log, Disconnected);
    }
  }

  lemma StepKeepsInv(s: State, x: Action)
    requires Inv(s) && Legal(s, x)
    ensures Inv(Next(s, x))
  {
    match x
    case FinishPoll(i, reply) => FinishKeepsInv(s, i, reply);
    case StartPoll(kind) =>
      var r := Next(s, x);
      if r.log != s.log {
        LogGrows(s.log, Disconnected);
      }
    case DropForeign(f) =>
      if !s.gone {
        assert CONNECTION in s.finalizers ==> CONNECTION in WithoutFinalizer(s.finalizers, f);
      }
    case _ =>
  }

  // ------------------------------------------------------------------------ runs

  ghost predicate IsRun(ss: seq<State>, xs: seq<Action>) {
    && |ss| == |xs| + 1 && ss[0] == Registered(ss[0].strict)
    && forall i :: 0 <= i < |xs| ==> IsStep(ss[i], xs[i], ss[i + 1])
  }

  ghost predicate IsStep(s: State, x: Action, s': State) {
    Legal(s, x) && s' == Next(s, x)
  }

  /** For any interleaving of any number of polls, whose patches may silently fail:
      while the workload finalizer is there, so is the connection finalizer; neither
      leaves before deletion is requested; and every disconnect command comes after a
      data poll has removed the workload finalizer. */
  lemma {:induction false} Handshake(ss: seq<State>, xs: seq<Action>, i: nat)
    requires IsRun(ss, xs) && i < |ss|
    ensures Inv(ss[i])
    ensures !ss[i].gone && WORKLOAD in ss[i].finalizers ==> CONNECTION in ss[i].finalizers
    ensures !ss[i].deleting ==> CONNECTION in ss[i].finalizers && WORKLOAD in ss[i].finalizers
    ensures forall j :: 0 <= j < |ss[i].log| && ss[i].log[j] == Disconnected ==>
      exists k :: 0 <= k < j && ss[i].log[k] == WorkloadRemoved
  {
    if i == 0 {
      assert ss[0].finalizers[1] == WORKLOAD && ss[0].finalizers[0] == CONNECTION;
    } else {
      Handshake(ss, xs, i - 1);
      assert IsStep(ss[i - 1], xs[i - 1], ss[i - 1 + 1]);
      StepKeepsInv(ss[i - 1], xs[i - 1]);
    }
    forall j | 0 <= j < |ss[i].log| && ss[i].log[j] == Disconnected
      ensures exists k :: 0 <= k < j && ss[i].log[k] == WorkloadRemoved
    {
      assert WorkloadRemoved in ss[i].log[..j];
    }
  }

  /** Only a data poll that finishes takes the workload finalizer away, and it never
      comes back. */
  lemma WorkloadFinalizerLeavesOnce(s: State, x: Action)
    requires Inv(s) && Legal(s, x)
    ensures var r := Next(s, x);
      && (WORKLOAD !in s.finalizers ==> WORKLOAD !in r.finalizers)
      && (WORKLOAD in s.finalizers && WORKLOAD !in r.finalizers ==>
            x.FinishPoll? && s.polls[x.i].kind.Data? && s.deleting)
  {
    if x.FinishPoll? {
      assert s.polls[x.i] in s.polls;
      FinishKeepsInv(s, x.i, x.reply);
    }
  }

  /** Nobody else has put a finalizer on the device. */
  predicate OnlyOurs(s: State) {
    && (forall f :: f in s.finalizers ==> !Foreign(f))
    && (forall p :: p in s.polls ==> forall f :: f in p.seen ==> !Foreign(f))
  }

  /** On a strict server, or with the operator's finalizers alone, no step but another
      controller's adds a finalizer, however stale its patch. */
  lemma FinalizersNeverGrow(s: State, x: Action)
    requires Inv(s) && Legal(s, x) && !x.AddForeign?
    requires s.strict || OnlyOurs(s)
    ensures OnlyOurs(s) ==> OnlyOurs(Next(s, x))
    ensures Next(s, x).strict == s.strict
    ensures forall f :: f in Next(s, x).finalizers ==> f in s.finalizers
  {
    var r := Next(s, x);
    if x.FinishPoll? {
      var p := s.polls[x.i];
      assert p in s.polls;
      forall q | q in r.polls ensures q in s.polls {}
      assert s.finalizers != [] ==> s.finalizers[0] in s.finalizers;
    }
  }

  /** A whole poll, with nothing in between. */
  function PollThrough(s: State, kind: Kind, reply: Reply): State {
    var r := Start(s, kind);
    if |r.polls| > |s.polls| then Finish(r, |s.polls|, reply) else r
  }

  /** Which finalizer a poll that starts now has to take off. */
  predicate TakesOff(s: State, kind: Kind) {
    !s.gone && s.deleting && Mine(kind) in s.finalizers && (kind.Control? ==> WORKLOAD !in s.finalizers)
  }

  lemma StartedPoll(s: State, kind: Kind)
    ensures Start(s, kind) ==
      if TakesOff(s, kind) then s.(polls := s.polls + [Poll(kind, s.finalizers)])
      else if kind.Control? && !s.gone && s.deleting && WORKLOAD !in s.finalizers then s.(log := s.log + [Disconnected])
      else s
  {
  }

  /** A patch that is not stale is refused by no strict server. */
  lemma FreshPatch(s: State, kind: Kind, reply: Reply)
    requires TakesOff(s, kind)
    ensures var r := Patched(s, Poll(kind, s.finalizers), reply);
      if reply == Rejected then r == s
      else
        && r.finalizers == WithoutFinalizer(s.finalizers, Mine(kind))
        && r.log == s.log + (if kind.Data? then [WorkloadRemoved] else [])
        && r.polls == s.polls && r.deleting && r.strict == s.strict
  {
  }

  /** A device that is not under deletion sees no change from a poll. Else a data poll takes
      the workload finalizer off, and a control poll, once that one is gone, takes the
      connection finalizer off and sends the command, which a refused patch does not hold
      back. */
  lemma PollDoes(s: State, kind: Kind, reply: Reply)
    requires Inv(s)
    ensures var r := PollThrough(s, kind, reply);
      && Inv(r) && r.polls == s.polls && r.deleting == s.deleting
      && (!s.deleting || s.gone ==> r == s)
      && (forall f :: f in r.finalizers <==>
            f in s.finalizers && !(TakesOff(s, kind) && reply != Rejected && f == Mine(kind)))
      && r.log == s.log +
           (if kind.Data? && TakesOff(s, kind) && reply != Rejected then [WorkloadRemoved]
            else if kind.Control? && !s.gone && s.deleting && WORKLOAD !in s.finalizers then [Disconnected]
            else [])
  {
    StepKeepsInv(s, StartPoll(kind));
    StartedPoll(s, kind);
    var started := Start(s, kind);
    if TakesOff(s, kind) {
      var i := |s.polls|;
      assert started.polls[..i] + started.polls[i + 1..] == s.polls;
      FinishKeepsInv(started, i, reply);
      FreshPatch(s, kind, reply);
      assert started.(polls := s.polls) == s;
    }
  }

  /** Two polls in turn that get through free a device under deletion of the operator's
      finalizers and tell it to disconnect, no matter what polls are still under way. */
  lemma TwoPollsRelease(s: State)
    requires Inv(s) && s.deleting && !s.gone
    ensures var a := PollThrough(s, Data, Accepted);
      var b := PollThrough(a, Control, Accepted);
      && WORKLOAD !in a.finalizers
      && WORKLOAD !in b.finalizers && CONNECTION !in b.finalizers
      && (b.gone <==> forall f :: f in s.finalizers ==> !Foreign(f))
      && b.log == a.log + [Disconnected]
  {
    var a := PollThrough(s, Data, Accepted);
    PollDoes(s, Data, Accepted);
    PollDoes(a, Control, Accepted);
    var b := PollThrough(a, Control, Accepted);
    assert !a.gone by {
      assert WORKLOAD in s.finalizers ==> CONNECTION in a.finalizers;
    }
    assert forall f :: Foreign(f) ==> (f in b.finalizers <==> f in s.finalizers);
    assert b.finalizers != [] ==> b.finalizers[0] in b.finalizers;
  }

  /** On a server that is not strict, a foreign finalizer keeps the device while a
      second, stale data patch puts the connection finalizer back. */
  lemma StalePatchRestoresTheConnection(x: string)
    requires Foreign(x)
    ensures var s0 := Registered(false).(finalizers := [CONNECTION, WORKLOAD, x], deleting := true);
      var s1 := Next(Next(s0, StartPoll(Data)), StartPoll(Data));
      && |s1.polls| == 2
      && var s2 := Next(Next(s1, FinishPoll(0, Accepted)), StartPoll(Control));
      && |s2.polls| == 2
      && var s3 := Next(s2, FinishPoll(1, Accepted));
      && |s3.polls| == 1
      && var s4 := Next(s3, FinishPoll(0, Accepted));
      && CONNECTION !in s3.finalizers && CONNECTION in s4.finalizers
  {
    assert WithoutFinalizer([CONNECTION], CONNECTION) == [];
    assert WithoutFinalizer([CONNECTION, x], CONNECTION) == [x] by {
      assert [CONNECTION, x][..1] == [CONNECTION];
    }
    assert WithoutFinalizer([CONNECTION, WORKLOAD, x], WORKLOAD) == [CONNECTION, x] by {
      assert [CONNECTION, WORKLOAD, x][..2] == [CONNECTION, WORKLOAD];
      assert [CONNECTION, WORKLOAD][..1] == [CONNECTION];
      assert WithoutFinalizer([CONNECTION], WORKLOAD) == [CONNECTION];
      assert WithoutFinalizer([CONNECTION, WORKLOAD], WORKLOAD) == [CONNECTION];
    }
  }

  // -------------------------------------------------------------------- handlers

  /** The store as the two handlers and the device repository work on it. */
  class Handler {
    var store: State

    constructor (s: State)
      ensures store == s
    {
      store := s;
    }

    /** The read of `GetDataMessageForDevice` or `GetControlMessageForDevice`, and the
        answer of those that have nothing to patch. */
    method BeginPoll(kind: Kind)
      requires Inv(store)
      modifies this
      ensures store == Start(old(store), kind) && Inv(store)
      ensures store.finalizers == old(store).finalizers && store.deleting == old(store).deleting
      ensures store.polls == old(store).polls || store.polls == old(store).polls + [Poll(kind, store.finalizers)]
    {
      assert Legal(store, StartPoll(kind));
      StepKeepsInv(store, StartPoll(kind));
      if store.gone || !store.deleting {
        return;
      }
      if kind.Data? {
        if WORKLOAD in store.finalizers {
          store := store.(polls := store.polls + [Poll(Data, store.finalizers)]);
        }
      } else if WORKLOAD !in store.finalizers {
        if CONNECTION in store.finalizers {
          store := store.(polls := store.polls + [Poll(Control, store.finalizers)]);
        } else {
          store := store.(log := store.log + [Disconnected]);
        }
      }
    }

    /** `RemoveFinalizer`: filters the list that was read and patches the store. It
        reports no error, whatever the reply. */
    method RemoveFinalizer(p: Poll, reply: Reply)
      modifies this
      ensures store == Patched(old(store), p, reply)
    {
      var finalizers: seq<string> := [];
      for i := 0 to |p.seen|
        invariant finalizers == WithoutFinalizer(p.seen[..i], Mine(p.kind))
        invariant store == old(store)
      {
        assert p.seen[..i + 1][..i] == p.seen[..i];
        if p.seen[i] != Mine(p.kind) {
          finalizers := finalizers + [p.seen[i]];
        }
      }
      assert p.seen[..|p.seen|] == p.seen;
      if store.gone || reply == Rejected || Refused(store, finalizers) {
        return;
      }
      if WORKLOAD in store.finalizers && WORKLOAD !in finalizers {
        store := store.(log := store.log + [WorkloadRemoved]);
      }
      store := Settle(store.(finalizers := finalizers));
    }

    /** The rest of a poll: its patch, and for a control poll the command. */
    method EndPoll(i: nat, reply: Reply)
      requires Inv(store) && i < |store.polls|
      modifies this
      ensures store == Finish(old(store), i, reply) && Inv(store)
    {
      FinishKeepsInv(store, i, reply);
      var p := store.polls[i];
      store := store.(polls := store.polls[..i] + store.polls[i + 1..]);
      RemoveFinalizer(p, reply);
      if p.kind.Control? {
        store := store.(log := store.log + [Disconnected]);
      }
    }

    /** A whole poll, with nothing in between. */
    method HandlePoll(kind: Kind, reply: Reply)
      requires Inv(store)
      modifies this
      ensures Inv(store) && store.polls == old(store).polls && store.deleting == old(store).deleting
      ensures !old(store).deleting || old(store).gone ==> store == old(store)
      ensures forall f :: f in store.finalizers <==>
        f in old(store).finalizers && !(TakesOff(old(store), kind) && reply != Rejected && f == Mine(kind))
      ensures store.log == old(store).log +
        (if kind.Data? && TakesOff(old(store), kind) && reply != Rejected then [WorkloadRemoved]
         else if kind.Control? && !old(store).gone && old(store).deleting && WORKLOAD !in old(store).finalizers
              then [Disconnected]
         else [])
    {
      PollDoes(store, kind, reply);
      var others := |store.polls|;
      BeginPoll(kind);
      if |store.polls| > others {
        EndPoll(others, reply);
      }
    }
  }
}
