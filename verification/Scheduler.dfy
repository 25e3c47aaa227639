/** Path selection (scheduler.go): round robin by quota and lowest round-trip time. The paths are a map
that is walked in any order; the order is a parameter. */
module Schedulers {
  import opened Basics

  type PathID = x: nat | x < 0x100

  const INITIAL_PATH: PathID := 0
  const MAX_UINT: nat := 0xffff_ffff_ffff_ffff

  datatype Path = Path(sendingAllowed: bool, potentiallyFailed: bool, smoothedRTT: nat)

  type Paths = map<PathID, Path>
  type Quotas = map<PathID, nat>

  /** A missing quota counts as zero. */
  function Quota(quotas: Quotas, p: PathID): nat {
    if p in quotas then quotas[p] else 0
  }

  /** Paths considered when there are several. */
  predicate Eligible(paths: Paths, hasRetransmission: bool, p: PathID) {
    && p in paths && p != INITIAL_PATH
    && (hasRetransmission || paths[p].sendingAllowed) && !paths[p].potentiallyFailed
  }

  /** A walk over the map: every key once. */
  ghost predicate Walk(paths: Paths, order: seq<PathID>) {
    && (forall p :: p in order <==> p in paths)
    && forall i, j :: 0 <= i < j < |order| ==> order[i] != order[j]
  }

  /** Quotas differ only by zeros that have been written out. */
  ghost predicate SameQuotas(quotas: Quotas, quotas': Quotas) {
    forall p :: Quota(quotas, p) == Quota(quotas', p)
  }

  /** With one path or none, that path is taken unless it is blocked. */
  ghost predicate SinglePath(paths: Paths, hasRetransmission: bool, r: Option<PathID>) {
    r == if !hasRetransmission && INITIAL_PATH in paths && !paths[INITIAL_PATH].sendingAllowed then None else Some(INITIAL_PATH)
  }

  /** Round robin takes an eligible path with the lowest quota; a full quota is never taken. */
  ghost predicate LeastQuota(paths: Paths, quotas: Quotas, hasRetransmission: bool, r: Option<PathID>) {
    match r
    case None => forall p :: Eligible(paths, hasRetransmission, p) ==> Quota(quotas, p) >= MAX_UINT
    case Some(s) =>
      && Eligible(paths, hasRetransmission, s) && Quota(quotas, s) < MAX_UINT
      && forall p :: Eligible(paths, hasRetransmission, p) ==> Quota(quotas, s) <= Quota(quotas, p)
  }

  /** Lowest RTT takes a probed path with the lowest round-trip time, or, if no path is probed, one with the
  lowest quota. */
  ghost predicate LeastRTT(paths: Paths, quotas: Quotas, hasRetransmission: bool, r: Option<PathID>) {
    match r
    case None => forall p :: !Eligible(paths, hasRetransmission, p)
    case Some(s) =>
      && Eligible(paths, hasRetransmission, s)
      && forall p :: Eligible(paths, hasRetransmission, p) ==> NotBetter(paths, quotas, s, p)
  }

  ghost predicate NotBetter(paths: Paths, quotas: Quotas, s: PathID, p: PathID)
    requires s in paths && p in paths
  {
    if paths[s].smoothedRTT == 0 then paths[p].smoothedRTT == 0 && Quota(quotas, s) <= Quota(quotas, p)
    else paths[p].smoothedRTT == 0 || paths[s].smoothedRTT <= paths[p].smoothedRTT
  }

  /** A retransmission from an unprobed path may go to any other path with a lower quota. */
  predicate Shortcut(paths: Paths, quotas: Quotas, from: PathID, p: PathID) {
    p in paths && p != INITIAL_PATH && p != from && Quota(quotas, p) < Quota(quotas, from)
  }

  class Scheduler {
    var quotas: Quotas

    constructor ()
      ensures quotas == map[]
    {
      quotas := map[];
    }

    method SelectPathRoundRobin(paths: Paths, order: seq<PathID>, hasRetransmission: bool) returns (selected: Option<PathID>)
      requires Walk(paths, order) && (|paths| <= 1 ==> INITIAL_PATH in paths)
      modifies this
      ensures SameQuotas(old(quotas), quotas)
      ensures |paths| <= 1 ==> SinglePath(paths, hasRetransmission, selected)
      ensures |paths| > 1 ==> LeastQuota(paths, quotas, hasRetransmission, selected)
    {
      if |paths| <= 1 {
        if !hasRetransmission && !paths[INITIAL_PATH].sendingAllowed {
          return None;
        }
        return Some(INITIAL_PATH);
      }
      selected := None;
      var lowerQuota := MAX_UINT;
      for i := 0 to |order|
        invariant SameQuotas(old(quotas), quotas)
        invariant selected.None? ==> lowerQuota == MAX_UINT
        invariant selected.Some? ==> Eligible(paths, hasRetransmission, selected.value) && lowerQuota == Quota(quotas, selected.value) < MAX_UINT
        invariant forall k :: 0 <= k < i && Eligible(paths, hasRetransmission, order[k]) ==> lowerQuota <= Quota(quotas, order[k])
      {
        var p := order[i];
        if (hasRetransmission || paths[p].sendingAllowed) && !paths[p].potentiallyFailed && p != INITIAL_PATH {
          if p !in quotas {
            quotas := quotas[p := 0];
          }
          var currentQuota := quotas[p];
          if currentQuota < lowerQuota {
            selected, lowerQuota := Some(p), currentQuota;
          }
        }
      }
      assert forall p :: Eligible(paths, hasRetransmission, p) ==> p in order;
    }

    method SelectPathLowLatency(paths: Paths, order: seq<PathID>, hasRetransmission: bool, hasStreamRetransmission: bool, from: PathID)
      returns (selected: Option<PathID>)
      requires Walk(paths, order) && (|paths| <= 1 ==> INITIAL_PATH in paths)
      requires hasRetransmission ==> from in paths
      modifies this
      ensures SameQuotas(old(quotas), quotas)
      ensures |paths| <= 1 ==> SinglePath(paths, hasRetransmission, selected)
      ensures |paths| > 1 ==>
                var reinject := hasRetransmission && hasStreamRetransmission && paths[from].smoothedRTT == 0;
                if reinject && exists p :: Shortcut(paths, quotas, from, p)
                then selected.Some? && Shortcut(paths, quotas, from, selected.value)
                else LeastRTT(paths, quotas, hasRetransmission, selected)
    {
      if |paths| <= 1 {
        if !hasRetransmission && !paths[INITIAL_PATH].sendingAllowed {
          return None;
        }
        return Some(INITIAL_PATH);
      }
      if hasRetransmission && hasStreamRetransmission && paths[from].smoothedRTT == 0 {
        var currentQuota := Quota(quotas, from);
        for i := 0 to |order|
          invariant forall k :: 0 <= k < i ==> !Shortcut(paths, quotas, from, order[k])
        {
          var p := order[i];
          if p != INITIAL_PATH && p != from && Quota(quotas, p) < currentQuota {
            assert Shortcut(paths, quotas, from, p);
            return Some(p);
          }
        }
        assert forall p :: Shortcut(paths, quotas, from, p) ==> p in order;
      }
      selected := WalkLowLatency(paths, order, hasRetransmission);
    }

    /** The walk that keeps the best path so far. */
    method WalkLowLatency(paths: Paths, order: seq<PathID>, hasRetransmission: bool) returns (selected: Option<PathID>)
      requires Walk(paths, order)
      modifies this
      ensures SameQuotas(old(quotas), quotas) && LeastRTT(paths, quotas, hasRetransmission, selected)
    {
      selected := None;
      var lowerRTT, selectedID: PathID := 0, 255;
      for i := 0 to |order|
        invariant SameQuotas(old(quotas), quotas)
        invariant selected.None? ==> lowerRTT == 0 && forall k :: 0 <= k < i ==> !Eligible(paths, hasRetransmission, order[k])
        invariant selected.Some? ==>
                    && Eligible(paths, hasRetransmission, selected.value) && lowerRTT == paths[selected.value].smoothedRTT
                    && selectedID == selected.value
                    && forall k :: 0 <= k < i && Eligible(paths, hasRetransmission, order[k]) ==> NotBetter(paths, quotas, selected.value, order[k])
      {
        var p := order[i];
        if (hasRetransmission || paths[p].sendingAllowed) && !paths[p].potentiallyFailed && p != INITIAL_PATH {
          var currentRTT := paths[p].smoothedRTT;
          var skip := lowerRTT != 0 && currentRTT == 0;
          if !skip && currentRTT == 0 {
            if p !in quotas {
              quotas := quotas[p := 0];
            }
            var lowerQuota := Quota(quotas, selectedID);
            skip := selected.Some? && quotas[p] > lowerQuota;
          }
          if !skip && currentRTT != 0 && lowerRTT != 0 && selected.Some? && currentRTT >= lowerRTT {
            skip := true;
          }
          if !skip {
            lowerRTT, selected, selectedID := currentRTT, Some(p), p;
          }
        }
      }
      assert forall p :: Eligible(paths, hasRetransmission, p) ==> p in order;
    }

    /** A packet was sent on the path. */
    method PacketSent(p: PathID)
      modifies this
      ensures quotas == old(quotas)[p := (Quota(old(quotas), p) + 1) % (MAX_UINT + 1)]
    {
      quotas := quotas[p := (Quota(quotas, p) + 1) % (MAX_UINT + 1)];
    }

    /** One round: select a path, and count the packet if one was sent. */
    method RoundRobinRound(paths: Paths, order: seq<PathID>, hasRetransmission: bool, packed: bool) returns (selected: Option<PathID>)
      requires Walk(paths, order) && |paths| > 1
      modifies this
      ensures RoundStep(old(quotas), quotas, Round(paths, hasRetransmission, selected, packed))
    {
      selected := SelectPathRoundRobin(paths, order, hasRetransmission);
      assert LeastQuota(paths, old(quotas), hasRetransmission, selected) by {
        LeastQuotaSame(paths, old(quotas), quotas, hasRetransmission, selected);
      }
      if selected.Some? && packed {
        PacketSent(selected.value);
      }
    }
  }

  lemma {:induction false} LeastQuotaSame(paths: Paths, quotas: Quotas, quotas': Quotas, hasRetransmission: bool, r: Option<PathID>)
    requires SameQuotas(quotas, quotas') && LeastQuota(paths, quotas', hasRetransmission, r)
    ensures LeastQuota(paths, quotas, hasRetransmission, r)
  {
    assert forall p :: Quota(quotas, p) == Quota(quotas', p);
  }

  // ----- fairness of round robin -----

  datatype Round = Round(paths: Paths, hasRetransmission: bool, selected: Option<PathID>, packed: bool)

  /** The packet of a round counts on the selected path; quotas do not wrap. */
  ghost predicate RoundStep(quotas: Quotas, quotas': Quotas, r: Round) {
    && LeastQuota(r.paths, quotas, r.hasRetransmission, r.selected)
    && forall p: PathID :: Quota(quotas', p) == Quota(quotas, p) + if r.packed && r.selected == Some(p) then 1 else 0
  }

  /** Rounds in which anything about the paths may change from one to the next. */
  ghost predicate Rounds(qs: seq<Quotas>, rs: seq<Round>) {
    |qs| == |rs| + 1 && forall i :: 0 <= i < |rs| ==> RoundStep(qs[i], qs[i + 1], rs[i])
  }

  ghost predicate AlwaysEligible(rs: seq<Round>, p: PathID) {
    forall i :: 0 <= i < |rs| ==> Eligible(rs[i].paths, rs[i].hasRetransmission, p)
  }

  /** While p stays eligible, no other path gets ahead of it by more than one packet. */
  lemma {:induction false} RoundRobinFair(qs: seq<Quotas>, rs: seq<Round>, p: PathID, q: PathID)
    requires Rounds(qs, rs) && AlwaysEligible(rs, p)
    ensures Quota(qs[|rs|], q) <= Quota(qs[0], q) || Quota(qs[|rs|], q) <= Quota(qs[|rs|], p) + 1
    decreases |rs|
  {
    if rs != [] {
      var n := |rs| - 1;
      RoundRobinFair(qs[..n + 1], rs[..n], p, q);
      assert RoundStep(qs[n], qs[n + 1], rs[n]);
    }
  }

  /** Paths that stay eligible and start with equal quotas never differ by more than one. */
  lemma {:induction false} EqualShares(qs: seq<Quotas>, rs: seq<Round>, p: PathID, q: PathID)
    requires Rounds(qs, rs) && AlwaysEligible(rs, p) && AlwaysEligible(rs, q) && Quota(qs[0], p) == Quota(qs[0], q)
    ensures -1 <= Quota(qs[|rs|], p) - Quota(qs[|rs|], q) <= 1
  {
    RoundRobinFair(qs, rs, p, q);
    RoundRobinFair(qs, rs, q, p);
    QuotasGrow(qs, rs, p);
    QuotasGrow(qs, rs, q);
  }

  lemma {:induction false} QuotasGrow(qs: seq<Quotas>, rs: seq<Round>, p: PathID)
    requires Rounds(qs, rs)
    ensures Quota(qs[0], p) <= Quota(qs[|rs|], p)
    decreases |rs|
  {
    if rs != [] {
      var n := |rs| - 1;
      QuotasGrow(qs[..n + 1], rs[..n], p);
      assert RoundStep(qs[n], qs[n + 1], rs[n]);
    }
  }

  /** The quota of a path counts the packets sent on it. */
  lemma {:induction false} RoundsAddUp(qs: seq<Quotas>, rs: seq<Round>, p: PathID)
    requires Rounds(qs, rs)
    ensures Quota(qs[|rs|], p) - Quota(qs[0], p) == Sent(rs, p)
    decreases |rs|
  {
    if rs != [] {
      var n := |rs| - 1;
      RoundsAddUp(qs[..n + 1], rs[..n], p);
      assert RoundStep(qs[n], qs[n + 1], rs[n]);
    }
  }

  /** Packets sent on a path. */
  function Sent(rs: seq<Round>, p: PathID): nat {
    if rs == [] then 0
    else
      var n := |rs| - 1;
      Sent(rs[..n], p) + if rs[n].packed && rs[n].selected == Some(p) then 1 else 0
  }
}
