/** The events a `quick_xml::Reader` with text trimming yields, as the
    extractors see them. Tag and attribute names are local names. */
module Xml {
  import opened Wrappers

  datatype Attribute = Attribute(key: string, value: string)

  datatype Event =
    | Start(name: string, attrs: seq<Attribute>)
    | Empty(name: string, attrs: seq<Attribute>)
    | End(name: string)
    /** A text node; None when unescaping its content fails. */
    | Text(content: Option<string>)
    /** Declarations, comments, CDATA and the like. */
    | Other
    | Eof
    /** A malformed document: the reader reports an error. */
    | Fail

  /** The value the extractors' attribute loop keeps for `key`: each
      attribute with that key overwrites the previous one, so the last
      occurrence counts, and "" when there is none. The reader reports a
      repeated qualified name as an error, which the loop skips, so `attrs`
      holds only the attributes it yields without error. */
  function LastValue(attrs: seq<Attribute>, key: string): string {
    if attrs == [] then ""
    else if attrs[|attrs| - 1].key == key then attrs[|attrs| - 1].value
    else LastValue(attrs[..|attrs| - 1], key)
  }

  /** Attributes with other keys after the last one do not change it; in
      particular the value is "" when no attribute has the key. */
  lemma {:induction false} LastValueSkips(attrs: seq<Attribute>, more: seq<Attribute>, key: string)
    requires forall k :: 0 <= k < |more| ==> more[k].key != key
    ensures LastValue(attrs + more, key) == LastValue(attrs, key)
    decreases |more|
  {
    if more == [] {
      assert attrs + more == attrs;
    } else {
      var front := more[..|more| - 1];
      assert (attrs + more)[..|attrs + more| - 1] == attrs + front;
      LastValueSkips(attrs, front, key);
    }
  }

  /** The last attribute with the key gives the value. */
  lemma LastValueOfLast(attrs: seq<Attribute>, key: string, value: string, more: seq<Attribute>)
    requires forall k :: 0 <= k < |more| ==> more[k].key != key
    ensures LastValue(attrs + [Attribute(key, value)] + more, key) == value
  {
    LastValueSkips(attrs + [Attribute(key, value)], more, key);
  }

  /** The events that end a reader loop: the end of input and a read error. */
  predicate Stops(e: Event) {
    e.Eof? || e.Fail?
  }

  /** The events a reader loop handles: those before the first end of input
      or read error. */
  function UntilStop(events: seq<Event>): (r: seq<Event>)
    ensures |r| <= |events| && r == events[..|r|]
    ensures forall k :: 0 <= k < |r| ==> !Stops(r[k])
    ensures |r| < |events| ==> Stops(events[|r|])
  {
    if events == [] || Stops(events[0]) then [] else [events[0]] + UntilStop(events[1..])
  }

  /** The loop stops exactly at the first stopping event. */
  lemma UntilStopIsFirst(events: seq<Event>, i: nat)
    requires i <= |events|
    requires forall k :: 0 <= k < i ==> !Stops(events[k])
    requires i < |events| ==> Stops(events[i])
    ensures UntilStop(events) == events[..i]
  {
  }

  /** A stretch without stopping events, then a stop. */
  lemma UntilStopAppend(xs: seq<Event>, ys: seq<Event>)
    requires forall k :: 0 <= k < |xs| ==> !Stops(xs[k])
    requires ys != [] && Stops(ys[0])
    ensures UntilStop(xs + ys) == xs
  {
    UntilStopIsFirst(xs + ys, |xs|);
    assert (xs + ys)[..|xs|] == xs;
  }
}
