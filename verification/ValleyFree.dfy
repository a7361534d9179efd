/**
 What the interface-pair checks of single routers add up to: the links any packet crosses,
 whatever its path field says, go up, then over core links or one peer link, then down.
 */
module ValleyFree {
  import opened Basics
  import opened ScionPath
  import opened Router
  import opened Network

  /** Link types at the sending end: Parent is a step up, Child a step down. */
  ghost predicate IsValleyFree(s: seq<LinkType>, a: nat, b: nat) {
    && a <= b <= |s|
    && (forall i :: 0 <= i < a ==> s[i] == Parent)
    && ((forall i :: a <= i < b ==> s[i] == Core) || (b == a + 1 && s[a] == Peer))
    && (forall i :: b <= i < |s| ==> s[i] == Child)
  }

  ghost predicate UpAcrossDown(s: seq<LinkType>) {
    exists a: nat, b: nat :: IsValleyFree(s, a, b)
  }

  /** After a link of type `p`, a router may send over a link of type `x`. */
  predicate Follows(p: LinkType, x: LinkType) { Allowed(Opposite(p), x) }

  lemma Extends(s: seq<LinkType>, x: LinkType)
    requires UpAcrossDown(s) && s != [] && Follows(s[|s| - 1], x)
    ensures UpAcrossDown(s + [x])
  {
    var n := |s|;
    var a: nat, b: nat :| IsValleyFree(s, a, b);
    if x == Child {
      assert IsValleyFree(s + [x], a, b);
    } else if s[n - 1] == Parent {
      assert a == n;
      if x == Parent { assert IsValleyFree(s + [x], n + 1, n + 1); } else { assert IsValleyFree(s + [x], n, n + 1); }
    } else {
      assert s[n - 1] == Core && x == Core;
      assert IsValleyFree(s + [x], a, n + 1);
    }
  }

  lemma Starts(x: LinkType)
    requires x != Unset
    ensures UpAcrossDown([x])
  {
    if x == Parent {
      assert IsValleyFree([x], 1, 1);
    } else if x == Child {
      assert IsValleyFree([x], 0, 0);
    } else {
      assert IsValleyFree([x], 0, 1);
    }
  }

  lemma Empty()
    ensures UpAcrossDown([])
  {
    assert IsValleyFree([], 0, 0);
  }

  /** What the history of a packet says about its next link. */
  ghost predicate History(net: Network, st: Transit) {
    && Present(net, st) && UpAcrossDown(st.crossed)
    && (st.ingress != 0 ==> st.crossed != [])
    && (st.crossed != [] ==>
          && |st.crossed| <= st.path.currHf < st.path.NumHops()
          && var last := st.crossed[|st.crossed| - 1];
          && var d := net.routers[st.router];
          if st.ingress != 0 then d.TypeOf(st.ingress) == Opposite(last)
          else st.path.currInf < |st.path.infos| && Follows(last, d.TypeOf(CurrentEgress(st.path))))
  }

  lemma StepForward(net: Network, st: Transit, e: IfId, path: Path, st': Transit)
    requires Consistent(net) && History(net, st)
    requires VerdictAdvances(Forwarded(e, path, None, Out), st.path)
    requires e in net.routers[st.router].external
    requires if st.ingress == 0
             then st.path.currHf < |st.path.hops| && st.path.currInf < |st.path.infos| && e == CurrentEgress(st.path)
             else Allowed(net.routers[st.router].TypeOf(st.ingress), net.routers[st.router].TypeOf(e))
    requires var x := (net.routers[st.router].localIA, e);
             && x in net.remote && net.remote[x] in net.owner
             && st'.router == net.owner[net.remote[x]] && st'.ingress == net.remote[x].1
             && st'.path == path && st'.crossed == st.crossed + [net.routers[st.router].TypeOf(e)]
    ensures History(net, st')
  {
    hide Consistent, UpAcrossDown, Allowed;
    RemoteEnd(net, st.router, e);
    ExternalTyped(net, st.router, e);
    var x := net.routers[st.router].TypeOf(e);
    if st.crossed == [] {
      Starts(x);
      assert st.crossed + [x] == [x];
    } else {
      Extends(st.crossed, x);
    }
  }

  lemma StepKeepsHistory(net: Network, hdr: Header, env: Env, st: Transit)
    requires Consistent(net) && History(net, st) && Step(net, hdr, env, st).Some?
    ensures History(net, Step(net, hdr, env, st).value)
    ensures Step(net, hdr, env, st).value.path.NumHops() == st.path.NumHops()
  {
    hide Consistent, UpAcrossDown, Process, Allowed;
    var c := Ctx(net.routers[st.router], hdr, env, st.ingress);
    NoTypeForZero(net, st.router);
    ProcessKeeps(c, st.path);
    ProcessAllowed(c, st.path);
    var st' := Step(net, hdr, env, st).value;
    match Process(c, st.path) {
      case Forwarded(e, path, _, _) => StepForward(net, st, e, path, st');
      case HandedOver(_, path, _) => SiblingOf(net, st.router, CurrentEgress(path));
      case _ =>
    }
  }

  lemma {:induction false} RunHistory(net: Network, hdr: Header, envs: seq<Env>, states: seq<Transit>, i: nat)
    requires Consistent(net) && IsRun(net, hdr, envs, states) && Injected(net, states[0]) && i < |states|
    ensures History(net, states[i]) && states[i].path.NumHops() == states[0].path.NumHops()
  {
    hide Consistent, Step;
    if i == 0 {
      Empty();
    } else {
      RunHistory(net, hdr, envs, states, i - 1);
      assert Step(net, hdr, envs[i - 1], states[i - 1]) == Some(states[i]);
      StepKeepsHistory(net, hdr, envs[i - 1], states[i - 1]);
    }
  }

  /**
   Safety of forwarding for every packet, well formed or not: in every run the links crossed
   form up* (core* or one peer link) down*, and there are fewer of them than hop fields.
   */
  lemma {:induction false} ForwardingIsValleyFree(net: Network, hdr: Header, envs: seq<Env>, states: seq<Transit>,
                                                  i: nat)
    requires Consistent(net) && IsRun(net, hdr, envs, states) && Injected(net, states[0]) && i < |states|
    ensures UpAcrossDown(states[i].crossed)
    ensures states[i].crossed == [] || |states[i].crossed| <= states[0].path.NumHops() - 1
  {
    RunHistory(net, hdr, envs, states, i);
  }
}
