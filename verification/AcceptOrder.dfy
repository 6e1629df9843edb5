/** accept goes round the slots: nobody is passed over for longer than one round. */
module AcceptOrder {
  import opened CoordOps
  import Cells

  /** How far slot k lies ahead of slot `at`, going round. */
  function Distance(at: nat, k: nat, slots: nat): (d: nat)
    requires at < slots && k < slots
    ensures d < slots
    ensures d == 0 <==> at == k
  {
    if k >= at then k - at else k + slots - at
  }

  lemma {:induction false} Onwards(at: nat, k: nat, slots: nat)
    requires at < slots && k < slots
    ensures at != k ==> Distance(NextSlot(at, slots), k, slots) == Distance(at, k, slots) - 1
    ensures at == k ==> Distance(NextSlot(at, slots), k, slots) == slots - 1
  {
    hide NextSlot;
    NextIs(at, slots);
  }

  lemma {:induction false} NextIs(at: nat, slots: nat)
    requires at < slots
    ensures NextSlot(at, slots) == Cells.Wrap(at, slots)
  {
    if at + 1 < slots {
      Cells.ModUnique(at + 1, slots, 0, at + 1);
    } else {
      Cells.ModUnique(at + 1, slots, 1, 0);
    }
  }

  /** accept settles on the first eligible slot it comes to. */
  lemma {:induction false} PicksFirst(g: Pool, at: nat, n: nat, k: nat)
    requires at < |g.rows| == |g.reserved| && k < |g.rows| && Eligible(g, k) && Distance(at, k, |g.rows|) < n
    ensures Pick(g, at, n) < |g.rows| && Eligible(g, Pick(g, at, n))
    ensures Distance(at, Pick(g, at, n), |g.rows|) <= Distance(at, k, |g.rows|)
    ensures forall j: nat :: j < |g.rows| && Eligible(g, j) ==>
      Distance(at, Pick(g, at, n), |g.rows|) <= Distance(at, j, |g.rows|)
    decreases n
  {
    var slots := |g.rows|;
    if !Eligible(g, at) {
      var next := NextSlot(at, slots);
      Onwards(at, k, slots);
      PicksFirst(g, next, n - 1, k);
      Onwards(at, Pick(g, at, n), slots);
      forall j: nat | j < slots && Eligible(g, j)
        ensures Distance(at, Pick(g, at, n), slots) <= Distance(at, j, slots)
      {
        Onwards(at, j, slots);
      }
    }
  }

  /** A call returns slot k or brings accept_slot nearer to it. */
  lemma {:induction false} Approaches(g: Pool, k: nat)
    requires |g.rows| == |g.reserved| && g.accept < |g.rows| && k < |g.rows| && Eligible(g, k)
    ensures !Accept(g).1.Nothing? && Accept(g).0.accept < |g.rows|
    ensures Accept(g).1.slot == k ||
            Distance(Accept(g).0.accept, k, |g.rows|) < Distance(g.accept, k, |g.rows|)
  {
    var slots := |g.rows|;
    PicksFirst(g, g.accept, slots, k);
    var i := Pick(g, g.accept, slots);
    if i != k {
      Onwards(i, k, slots);
    }
  }

  /** The pools at successive calls of accept: between two calls anything may happen to the rows and to the
      kernel, only accept_slot is left alone, and slot k stays reserved, created and undetached. */
  ghost predicate Calls(slots: nat, gs: seq<Pool>, k: nat)
    decreases |gs|
  {
    gs == [] ||
    (&& Sized(gs[0], slots) && k < slots && Eligible(gs[0], k)
     && (|gs| >= 2 ==> gs[1].accept == Accept(gs[0]).0.accept)
     && Calls(slots, gs[1..], k))
  }

  lemma {:induction false} CallAt(slots: nat, gs: seq<Pool>, k: nat, j: nat)
    requires Calls(slots, gs, k) && j < |gs|
    ensures Sized(gs[j], slots) && k < slots && Eligible(gs[j], k)
    ensures j + 1 < |gs| ==> gs[j + 1].accept == Accept(gs[j]).0.accept
    decreases |gs|
  {
    if j > 0 {
      CallAt(slots, gs[1..], k, j - 1);
    }
  }

  /** Call j returns slot k. */
  predicate Returns(slots: nat, g: Pool, k: nat) {
    Sized(g, slots) && !Accept(g).1.Nothing? && Accept(g).1.slot == k
  }

  lemma {:induction false} WithinDistance(slots: nat, gs: seq<Pool>, k: nat) returns (j: nat)
    requires Calls(slots, gs, k) && gs != [] && |gs| > Distance(gs[0].accept, k, slots)
    ensures j <= Distance(gs[0].accept, k, slots) && Returns(slots, gs[j], k)
    decreases |gs|
  {
    hide Accept;
    Approaches(gs[0], k);
    if Returns(slots, gs[0], k) {
      j := 0;
    } else {
      CallAt(slots, gs, k, 1);
      j := WithinDistance(slots, gs[1..], k);
      j := j + 1;
    }
  }

  /** Fairness: whatever the other slots do, a slot that stays eligible is returned within as many calls of
      accept as there are slots, and none of those calls comes back empty-handed. */
  lemma {:induction false} WithinOneRound(slots: nat, gs: seq<Pool>, k: nat)
    requires Calls(slots, gs, k) && |gs| == slots
    ensures forall j :: 0 <= j < slots ==> Sized(gs[j], slots) && Accept(gs[j]).1 != Nothing
    ensures slots > 0 ==> exists j :: 0 <= j < slots && Returns(slots, gs[j], k)
  {
    hide Accept;
    forall j | 0 <= j < slots
      ensures Sized(gs[j], slots) && Accept(gs[j]).1 != Nothing
    {
      CallAt(slots, gs, k, j);
      Approaches(gs[j], k);
    }
    if slots > 0 {
      var j := WithinDistance(slots, gs, k);
    }
  }

  /** The bound cannot be improved: when every slot is eligible all the time, the slots are returned in turn,
      and the one just behind accept_slot comes last. */
  lemma {:induction false} InTurn(slots: nat, gs: seq<Pool>, k: nat, j: nat)
    requires Calls(slots, gs, k) && j < |gs|
    requires forall m, i :: 0 <= m < |gs| && 0 <= i < slots && Sized(gs[m], slots) ==> Eligible(gs[m], i)
    ensures Sized(gs[j], slots) && Accept(gs[j]).1 != Nothing
    ensures Accept(gs[j]).1.slot == (gs[0].accept + j) % slots
    decreases j
  {
    hide Accept, Calls;
    CallAt(slots, gs, k, j);
    Turn(gs[j]);
    if j > 0 {
      InTurn(slots, gs, k, j - 1);
      CallAt(slots, gs, k, j - 1);
      Turn(gs[j - 1]);
      Round(gs[0].accept + j - 1, slots);
    } else {
      CallAt(slots, gs, k, 0);
      assert gs[0].accept % slots == gs[0].accept;
    }
  }

  lemma {:induction false} Turn(g: Pool)
    requires |g.rows| == |g.reserved| && g.accept < |g.rows| && forall i :: 0 <= i < |g.rows| ==> Eligible(g, i)
    ensures Accept(g).1 != Nothing && Accept(g).1.slot == g.accept && Accept(g).0.accept == NextSlot(g.accept, |g.rows|)
  {
  }

  lemma {:induction false} Round(a: nat, slots: nat)
    requires slots > 0
    ensures NextSlot(a % slots, slots) == (a + 1) % slots
  {
    hide NextSlot;
    Cells.ModStep(a, slots);
    NextIs(a % slots, slots);
  }

  // ---------------------------------------------------------------------------------------
  // What a call answers
  // ---------------------------------------------------------------------------------------

  lemma {:induction false} PickNothing(g: Pool, at: nat, n: nat, k: nat)
    requires at < |g.rows| == |g.reserved| && k < |g.rows| && Distance(at, k, |g.rows|) < n
    requires Pick(g, at, n) == |g.rows|
    ensures !Eligible(g, k)
    decreases n
  {
    if at != k {
      Onwards(at, k, |g.rows|);
      PickNothing(g, NextSlot(at, |g.rows|), n - 1, k);
    }
  }

  /** A call comes back with nothing, and changes nothing, if and only if no slot is reserved, created and undetached.
      Otherwise it answers for such a slot: with the slot's own id and, if and only if the flag was down, with the
      slot's own pair. It puts up that slot's flag, moves accept_slot just past it, and leaves everything else as it
      was. */
  lemma {:induction false} AcceptAnswers(g: Pool)
    requires |g.rows| == |g.reserved| && g.accept < |g.rows|
    ensures
      var (g', answer) := Accept(g);
      && (answer.Nothing? <==>
            forall i :: 0 <= i < |g.rows| ==> g.rows[i].detach || !g.reserved[i] || !g.rows[i].created)
      && (answer.Nothing? ==> g' == g)
      && (!answer.Nothing? ==>
            && answer.slot < |g.rows|
            && var row := g.rows[answer.slot];
            && !row.detach && g.reserved[answer.slot] && row.created
            && answer.id == row.id && (answer.Pair? <==> !row.serverAttached)
            && (answer.Pair? ==> answer.request == row.request && answer.response == row.response)
            && g' == g.(accept := NextSlot(answer.slot, |g.rows|),
                        rows := g.rows[answer.slot := row.(serverAttached := true)]))
  {
    hide NextSlot, Pick;
    var slots, i := |g.rows|, Pick(g, g.accept, |g.rows|);
    if i == slots {
      forall k | 0 <= k < slots
        ensures g.rows[k].detach || !g.reserved[k] || !g.rows[k].created
      {
        PickNothing(g, g.accept, slots, k);
      }
    } else if g.rows[i].serverAttached {
      assert g.rows[i := g.rows[i].(serverAttached := true)] == g.rows;
    }
  }

  /** Between two calls slot k keeps its tenant: its flag is as the call left it, and so are its id and its pair. */
  ghost predicate SameTenant(slots: nat, gs: seq<Pool>, k: nat)
    decreases |gs|
  {
    |gs| <= 1 ||
    (&& k < slots && Sized(gs[0], slots) && Sized(gs[1], slots)
     && gs[1].rows[k].serverAttached == Accept(gs[0]).0.rows[k].serverAttached
     && gs[1].rows[k].id == gs[0].rows[k].id
     && gs[1].rows[k].request == gs[0].rows[k].request && gs[1].rows[k].response == gs[0].rows[k].response
     && SameTenant(slots, gs[1..], k))
  }

  /** The call answers with the pair of slot k. */
  predicate HandsOut(slots: nat, g: Pool, k: nat) {
    Sized(g, slots) && Accept(g).1.Pair? && Accept(g).1.slot == k
  }

  /** How many of the calls do. */
  function Pairs(slots: nat, gs: seq<Pool>, k: nat): (n: nat)
    decreases |gs|
  {
    if gs == [] then 0 else (if HandsOut(slots, gs[0], k) then 1 else 0) + Pairs(slots, gs[1..], k)
  }

  /** With the flag up no call answers with the pair. */
  lemma {:induction false} NoMorePairs(slots: nat, gs: seq<Pool>, k: nat)
    requires Calls(slots, gs, k) && gs != []
    requires SameTenant(slots, gs, k) && gs[0].rows[k].serverAttached
    ensures Pairs(slots, gs, k) == 0
    decreases |gs|
  {
    hide Accept;
    AcceptAnswers(gs[0]);
    if |gs| > 1 {
      NoMorePairs(slots, gs[1..], k);
    }
  }

  /** As long as slot k stays eligible and keeps its tenant, its pair is handed out by the first call that answers for
      it, if its flag was down, and by no other. */
  lemma {:induction false} FirstPair(slots: nat, gs: seq<Pool>, k: nat)
    requires Calls(slots, gs, k) && gs != []
    requires SameTenant(slots, gs, k) && !gs[0].rows[k].serverAttached
    ensures Pairs(slots, gs, k) == if exists j :: 0 <= j < |gs| && Returns(slots, gs[j], k) then 1 else 0
    decreases |gs|
  {
    hide Accept;
    AcceptAnswers(gs[0]);
    var rest := gs[1..];
    if rest != [] {
      if Returns(slots, gs[0], k) {
        NoMorePairs(slots, rest, k);
      } else {
        FirstPair(slots, rest, k);
        if j :| 0 <= j < |gs| && Returns(slots, gs[j], k) {
          assert Returns(slots, rest[j - 1], k);
        }
        if j :| 0 <= j < |rest| && Returns(slots, rest[j], k) {
          assert Returns(slots, gs[j + 1], k);
        }
      }
    }
    if Returns(slots, gs[0], k) {
      assert exists j :: 0 <= j < |gs| && Returns(slots, gs[j], k);
    }
  }

  /** Addresses once, in whole calls: in a round of calls, or more, in which slot k stays eligible and keeps its tenant,
      its pair is handed out exactly once if its flag was down at the start, and not at all if it was up. */
  lemma {:induction false} PairOnce(slots: nat, gs: seq<Pool>, k: nat)
    requires Calls(slots, gs, k) && |gs| >= slots > k
    requires SameTenant(slots, gs, k)
    ensures Pairs(slots, gs, k) == if gs[0].rows[k].serverAttached then 0 else 1
  {
    hide Accept, Pairs;
    if gs[0].rows[k].serverAttached {
      NoMorePairs(slots, gs, k);
    } else {
      FirstPair(slots, gs, k);
      var j := WithinDistance(slots, gs, k);
    }
  }
}
