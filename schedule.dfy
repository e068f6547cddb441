/**
 * check_violations: the daily timer task that does its work only on
 * Mondays. It looks up every registered plate in store order and tries to
 * send each report to the plate's owner by direct message. The clock, the
 * lookup service and the chat client are parameters: the weekday, one
 * lookup outcome per registered plate, and the set of owner ids the client
 * can resolve to a user (get_user).
 */
module Schedule {
  import opened Registry
  import opened Lookup

  /** datetime.weekday() of Monday. */
  const Monday := 0

  /** A direct message the sweep attempts: who it goes to and the report it carries. */
  datatype Delivery = Delivery(owner: Owner, report: Verdict)

  /** The delivery, if any, attempted for one entry and its lookup outcome. */
  function DeliveryFor(entry: Entry, outcome: Fetch, known: set<Owner>): (ds: seq<Delivery>)
    ensures |ds| <= 1
    ensures forall d :: d in ds ==> d.owner == entry.1 && d.owner in known && d.report.Report? && d.report.plate == entry.0
    ensures CheckViolation(entry.0, outcome).Report? && entry.1 in known ==>
      ds == [Delivery(entry.1, CheckViolation(entry.0, outcome))]
  {
    var v := CheckViolation(entry.0, outcome);
    if v.Report? && entry.1 in known then [Delivery(entry.1, v)] else []
  }

  /** The deliveries a Monday sweep attempts over entries e, in order. */
  function Deliveries(e: seq<Entry>, outcomes: seq<Fetch>, known: set<Owner>): (ds: seq<Delivery>)
    requires |outcomes| == |e|
    ensures forall d :: d in ds ==> d.owner in known && d.report.Report?
  {
    if e == [] then []
    else Deliveries(e[..|e| - 1], outcomes[..|e| - 1], known) + DeliveryFor(e[|e| - 1], outcomes[|e| - 1], known)
  }

  /**
   * A delivery is attempted exactly for the plates whose lookup gave a
   * report and whose owner the client knows, and it carries that report.
   */
  lemma {:induction false} DeliveriesExact(e: seq<Entry>, outcomes: seq<Fetch>, known: set<Owner>, d: Delivery)
    requires |outcomes| == |e|
    ensures d in Deliveries(e, outcomes, known) <==>
      exists i :: 0 <= i < |e| && e[i].1 in known && d == Delivery(e[i].1, CheckViolation(e[i].0, outcomes[i])) && d.report.Report?
  {
    if e != [] {
      var n := |e| - 1;
      DeliveriesExact(e[..n], outcomes[..n], known, d);
      if exists i :: 0 <= i < n && e[..n][i].1 in known && d == Delivery(e[..n][i].1, CheckViolation(e[..n][i].0, outcomes[..n][i])) && d.report.Report? {
        var i :| 0 <= i < n && e[..n][i].1 in known && d == Delivery(e[..n][i].1, CheckViolation(e[..n][i].0, outcomes[..n][i])) && d.report.Report?;
        assert e[i] == e[..n][i] && outcomes[i] == outcomes[..n][i];
      }
      if exists i :: 0 <= i < |e| && e[i].1 in known && d == Delivery(e[i].1, CheckViolation(e[i].0, outcomes[i])) && d.report.Report? {
        var i :| 0 <= i < |e| && e[i].1 in known && d == Delivery(e[i].1, CheckViolation(e[i].0, outcomes[i])) && d.report.Report?;
        if i < n {
          assert e[i] == e[..n][i] && outcomes[i] == outcomes[..n][i];
        }
      }
    }
  }

  /** The sweep over two runs of entries is the sweep over the first, then the second. */
  lemma {:induction false} DeliveriesConcat(e1: seq<Entry>, o1: seq<Fetch>, e2: seq<Entry>, o2: seq<Fetch>, known: set<Owner>)
    requires |o1| == |e1| && |o2| == |e2|
    ensures Deliveries(e1 + e2, o1 + o2, known) == Deliveries(e1, o1, known) + Deliveries(e2, o2, known)
  {
    if e2 == [] {
      assert e1 + e2 == e1 && o1 + o2 == o1;
    } else {
      var n := |e2| - 1;
      var e, o := e1 + e2, o1 + o2;
      DeliveriesConcat(e1, o1, e2[..n], o2[..n], known);
      assert e[..|e| - 1] == e1 + e2[..n];
      assert o[..|e| - 1] == o1 + o2[..n];
      assert e[|e| - 1] == e2[n] && o[|e| - 1] == o2[n];
      calc {
        Deliveries(e, o, known);
        Deliveries(e1 + e2[..n], o1 + o2[..n], known) + DeliveryFor(e2[n], o2[n], known);
        Deliveries(e1, o1, known) + Deliveries(e2[..n], o2[..n], known) + DeliveryFor(e2[n], o2[n], known);
      }
    }
  }

  /**
   * A lookup that raised at position i is skipped: it delivers nothing and
   * the plates after it are handled as if it were not there.
   */
  lemma FailedLookupSkipped(e: seq<Entry>, outcomes: seq<Fetch>, known: set<Owner>, i: nat)
    requires |outcomes| == |e| && i < |e| && outcomes[i].Raised?
    ensures Deliveries(e, outcomes, known) ==
      Deliveries(e[..i], outcomes[..i], known) + Deliveries(e[i + 1..], outcomes[i + 1..], known)
  {
    var before, after := Deliveries(e[..i], outcomes[..i], known), Deliveries(e[i + 1..], outcomes[i + 1..], known);
    var rest, restOut := [e[i]] + e[i + 1..], [outcomes[i]] + outcomes[i + 1..];
    assert e == e[..i] + rest;
    assert outcomes == outcomes[..i] + restOut;
    NoDeliveryAfterFailure(e[i], outcomes[i], known);
    DeliveriesConcat([e[i]], [outcomes[i]], e[i + 1..], outcomes[i + 1..], known);
    assert Deliveries(rest, restOut, known) == after;
    DeliveriesConcat(e[..i], outcomes[..i], rest, restOut, known);
    assert Deliveries(e[..i] + rest, outcomes[..i] + restOut, known) == before + after;
  }

  lemma NoDeliveryAfterFailure(entry: Entry, outcome: Fetch, known: set<Owner>)
    requires outcome.Raised?
    ensures Deliveries([entry], [outcome], known) == []
  {
  }

  /**
   * The sweep. Off Monday it returns at once. On Monday it looks up each
   * plate in store order, attempts a direct message when the result is a
   * report and the owner is known, and pauses once after every plate; a
   * failed lookup or a refused message does not stop the later plates.
   */
  method CheckViolations(weekday: int, store: DataManager, outcomes: seq<Fetch>, known: set<Owner>)
    returns (lookups: seq<string>, deliveries: seq<Delivery>, pauses: nat)
    requires 0 <= weekday < 7
    requires |outcomes| == |store.data|
    ensures weekday != Monday ==> lookups == [] && deliveries == [] && pauses == 0
    ensures weekday == Monday ==> lookups == Keys(store.data) && pauses == |store.data|
    ensures weekday == Monday ==> deliveries == Deliveries(store.data, outcomes, known)
  {
    lookups, deliveries, pauses := [], [], 0;
    if weekday != Monday {
      return;
    }
    var entries := store.data;
    var i := 0;
    while i < |entries|
      invariant 0 <= i <= |entries|
      invariant lookups == Keys(entries[..i])
      invariant deliveries == Deliveries(entries[..i], outcomes[..i], known)
      invariant pauses == i
    {
      var (plate, owner) := entries[i];
      var result := CheckViolation(plate, outcomes[i]);
      lookups := lookups + [plate];
      if result.Report? && owner in known {
        deliveries := deliveries + [Delivery(owner, result)];
      }
      pauses := pauses + 1;
      assert entries[..i + 1][..i] == entries[..i];
      assert outcomes[..i + 1][..i] == outcomes[..i];
      i := i + 1;
    }
    assert entries[..i] == entries;
    assert outcomes[..i] == outcomes;
  }
}
