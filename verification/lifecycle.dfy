/**
 The life of an order after it is placed: it may be shipped, and a
 government order may be inspected, any number of times and in any order.
 Nothing else about an order ever changes, and both flags only go from
 false to true.
 */
module Lifecycle {
  import opened Melons

  /** Something that can happen to a placed order. */
  datatype Event = Ship | Inspect(passed: bool)

  /** Inspections exist only for government orders. */
  predicate Supports(o: Order, e: Event) {
    e.Ship? || o.Government?
  }

  predicate SupportsAll(o: Order, events: seq<Event>) {
    forall i :: 0 <= i < |events| ==> Supports(o, events[i])
  }

  /** The parts of an order fixed at construction agree: the kind, the
      species, the quantity and, for international orders, the country code. */
  predicate SameOrder(a: Order, b: Order) {
    && a.Domestic? == b.Domestic?
    && a.International? == b.International?
    && a.Government? == b.Government?
    && a.species == b.species
    && a.qty == b.qty
    && (a.International? ==> a.countryCode == b.countryCode)
  }

  /** The order after one event. */
  function Apply(o: Order, e: Event): (r: Order)
    requires Supports(o, e)
    ensures SameOrder(o, r)
    ensures o.shipped ==> r.shipped
    ensures o.Government? ==> (o.passedInspection ==> r.passedInspection)
  {
    match e
    case Ship => MarkShipped(o)
    case Inspect(passed) => MarkInspection(o, passed)
  }

  /** The order after a sequence of events, first to last. It is shipped
      exactly when it was already or some event shipped it, and a government
      order has passed inspection exactly when it had already or some
      inspection passed. */
  function Replay(o: Order, events: seq<Event>): (r: Order)
    requires SupportsAll(o, events)
    ensures SameOrder(o, r)
    ensures r.shipped <==> o.shipped || Ship in events
    ensures o.Government? ==>
              (r.passedInspection <==> o.passedInspection || Inspect(true) in events)
    decreases |events|
  {
    if events == [] then
      o
    else
      var next := Apply(o, events[0]);
      assert SupportsAll(next, events[1..]) by {
        forall i | 0 <= i < |events[1..]|
          ensures Supports(next, events[1..][i])
        {
          assert events[1..][i] == events[i + 1];
        }
      }
      assert events == [events[0]] + events[1..];
      Replay(next, events[1..])
  }

  /** No sequence of events changes what an order costs, at any draw and
      clock reading. */
  lemma ReplayKeepsTotal(o: Order, events: seq<Event>,
                         draw: int, weekday: int, hour: int)
    requires SupportsAll(o, events)
    requires ValidDraw(draw) && ValidClock(weekday, hour)
    ensures GetTotal(Replay(o, events), draw, weekday, hour) == GetTotal(o, draw, weekday, hour)
  {
    var r := Replay(o, events);
    assert SameOrder(o, r);
    SamePriceTerms(r, o, draw, weekday, hour);
  }

  /** Replaying one list of events and then another is replaying the two
      lists joined. */
  lemma {:induction false} ReplayConcat(o: Order, first: seq<Event>, second: seq<Event>)
    requires SupportsAll(o, first + second)
    ensures SupportsAll(o, first)
    ensures SupportsAll(Replay(o, first), second)
    ensures Replay(Replay(o, first), second) == Replay(o, first + second)
    decreases |first|
  {
    assert forall i :: 0 <= i < |first| ==> (first + second)[i] == first[i];
    assert forall i :: 0 <= i < |second| ==> (first + second)[|first| + i] == second[i];
    if first != [] {
      var next := Apply(o, first[0]);
      assert (first + second)[1..] == first[1..] + second;
      assert SupportsAll(next, first[1..] + second) by {
        forall i | 0 <= i < |first[1..] + second|
          ensures Supports(next, (first[1..] + second)[i])
        {
          assert (first[1..] + second)[i] == (first + second)[i + 1];
        }
      }
      ReplayConcat(next, first[1..], second);
    } else {
      assert first + second == second;
    }
  }
}
