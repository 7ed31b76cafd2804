/**
 * The attribute lists XMLWikiPrinter handles: SAX attribute lists (in order,
 * duplicates allowed), the String[][] pair arrays and Map entry sets callers
 * pass in, and the specification of the filter that applies the policy to a
 * whole list.
 */
module AttributeLists {
  import opened AttributePolicy
  import opened Filtering

  /** A Java reference that may be null. */
  datatype Option<T> = None | Some(value: T)

  /** One entry of a SAX attribute list: its qualified name, which may be null, and its value. */
  datatype Attribute = Attribute(qName: Option<string>, value: string)

  /** One row of a String[][] attribute table: { name, value }; the name may be null. */
  type Pair = (Option<string>, string)

  /** One entry of a Map<String, String>, in the map's iteration order; key and value may be null. */
  datatype MapEntry = MapEntry(key: Option<string>, value: Option<string>)

  /** A null array or map is treated like an empty one. */
  function OrEmpty<T>(o: Option<seq<T>>): seq<T> {
    match o
    case None => []
    case Some(s) => s
  }

  /** isAttributeClean on a SAX attribute: neither list contains null, so a null name is never clean. */
  predicate IsClean(a: Attribute) {
    a.qName.Some? && IsAttributeClean(a.qName.value, a.value)
  }

  predicate AllClean(attributes: seq<Attribute>) {
    forall i :: 0 <= i < |attributes| ==> IsClean(attributes[i])
  }

  /** The entries of `attributes` that the policy admits, in their original order (what cleanAttributes returns). */
  function Sanitized(attributes: seq<Attribute>): (r: seq<Attribute>)
    ensures |r| <= |attributes|
  {
    Filter(attributes, IsClean)
  }

  /** Every attribute that survives the filter is clean. */
  lemma SanitizedAllClean(attributes: seq<Attribute>)
    ensures AllClean(Sanitized(attributes))
  {
    FilterKeepsOnlyKept(attributes, IsClean);
  }

  /** The attribute list built from a pair table: one attribute per row, in row order, nothing dropped. */
  function AttributesOfPairs(pairs: seq<Pair>): (r: seq<Attribute>)
    ensures |r| == |pairs|
    ensures forall i :: 0 <= i < |pairs| ==> r[i] == Attribute(pairs[i].0, pairs[i].1)
  {
    if pairs == [] then []
    else [Attribute(pairs[0].0, pairs[0].1)] + AttributesOfPairs(pairs[1..])
  }

  /** The attribute of a map entry, when neither its key nor its value is null. */
  function EntryAttribute(e: MapEntry): seq<Attribute> {
    if e.key.Some? && e.value.Some? then [Attribute(e.key, e.value.value)] else []
  }

  /** The attribute list built from a map: its entries with a non-null key and value, in iteration order. */
  function PresentEntries(entries: seq<MapEntry>): (r: seq<Attribute>)
    ensures |r| <= |entries|
  {
    if entries == [] then []
    else EntryAttribute(entries[0]) + PresentEntries(entries[1..])
  }

  /** Filtering distributes over concatenation: the order of the survivors is the input order. */
  lemma SanitizedConcat(a: seq<Attribute>, b: seq<Attribute>)
    ensures Sanitized(a + b) == Sanitized(a) + Sanitized(b)
  {
    FilterConcat(a, b, IsClean);
  }

  /** Every entry is kept exactly as often as it occurs in the input when it is clean, and never otherwise. */
  lemma SanitizedCount(attributes: seq<Attribute>, x: Attribute)
    ensures multiset(Sanitized(attributes))[x] == if IsClean(x) then multiset(attributes)[x] else 0
  {
    FilterCount(attributes, IsClean, x);
  }

  /** An attribute survives the filter if and only if it is in the input and clean. */
  lemma SanitizedMembers(attributes: seq<Attribute>, x: Attribute)
    ensures x in Sanitized(attributes) <==> x in attributes && IsClean(x)
  {
    SanitizedCount(attributes, x);
    assert x in Sanitized(attributes) <==> multiset(Sanitized(attributes))[x] > 0;
    assert x in attributes <==> multiset(attributes)[x] > 0;
  }

  /** The filter only deletes entries: it never reorders or rewrites them. */
  lemma SanitizedIsSubsequence(attributes: seq<Attribute>)
    ensures IsSubsequence(Sanitized(attributes), attributes)
  {
    FilterIsSubsequence(attributes, IsClean);
  }

  /** A list whose every entry is clean passes the filter unchanged. */
  lemma SanitizedKeepsClean(attributes: seq<Attribute>)
    requires AllClean(attributes)
    ensures Sanitized(attributes) == attributes
  {
    FilterKeepsAll(attributes, IsClean);
  }

  /** Cleaning an already cleaned list is a no-op. */
  lemma SanitizedIdempotent(attributes: seq<Attribute>)
    ensures Sanitized(Sanitized(attributes)) == Sanitized(attributes)
  {
    SanitizedAllClean(attributes);
    SanitizedKeepsClean(Sanitized(attributes));
  }

  /** The filter applied to a single attribute keeps it exactly when it is clean. */
  lemma SanitizedSingle(a: Attribute)
    ensures Sanitized([a]) == if IsClean(a) then [a] else []
  {
    assert [a][1..] == [];
  }

  /** What one map entry contributes to an element: its attribute if the key is non-null and the pair clean. */
  lemma SanitizedEntry(e: MapEntry)
    requires e.value.Some?
    ensures Sanitized(EntryAttribute(e)) ==
      if e.key.Some? && IsAttributeClean(e.key.value, e.value.value)
      then [Attribute(e.key, e.value.value)] else []
  {
    if e.key.Some? {
      SanitizedSingle(Attribute(e.key, e.value.value));
    }
  }

  /** One more table row extends the cleaned list by that row's attribute, if it is clean. */
  lemma SanitizedPairsStep(pairs: seq<Pair>, i: nat)
    requires i < |pairs|
    ensures Sanitized(AttributesOfPairs(pairs[..i + 1])) ==
      Sanitized(AttributesOfPairs(pairs[..i])) +
      (if pairs[i].0.Some? && IsAttributeClean(pairs[i].0.value, pairs[i].1)
       then [Attribute(pairs[i].0, pairs[i].1)] else [])
  {
    var a := Attribute(pairs[i].0, pairs[i].1);
    assert pairs[..i + 1] == pairs[..i] + [pairs[i]];
    AttributesOfPairsConcat(pairs[..i], [pairs[i]]);
    assert AttributesOfPairs([pairs[i]]) == [a];
    SanitizedConcat(AttributesOfPairs(pairs[..i]), [a]);
    SanitizedSingle(a);
  }

  /** One more map entry extends the cleaned list by that entry's contribution. */
  lemma SanitizedPresentEntriesStep(entries: seq<MapEntry>, i: nat)
    requires i < |entries| && entries[i].value.Some?
    ensures Sanitized(PresentEntries(entries[..i + 1])) ==
      Sanitized(PresentEntries(entries[..i])) +
      (if entries[i].key.Some? && IsAttributeClean(entries[i].key.value, entries[i].value.value)
       then [Attribute(entries[i].key, entries[i].value.value)] else [])
  {
    var e := entries[i];
    assert entries[..i + 1] == entries[..i] + [e];
    PresentEntriesConcat(entries[..i], [e]);
    assert PresentEntries([e]) == EntryAttribute(e);
    SanitizedConcat(PresentEntries(entries[..i]), EntryAttribute(e));
    SanitizedEntry(e);
  }

  /** The map builder distributes over concatenation: it keeps the iteration order. */
  lemma {:induction false} PresentEntriesConcat(a: seq<MapEntry>, b: seq<MapEntry>)
    ensures PresentEntries(a + b) == PresentEntries(a) + PresentEntries(b)
  {
    if a == [] {
      assert a + b == b;
    } else {
      assert (a + b)[0] == a[0];
      assert (a + b)[1..] == a[1..] + b;
      PresentEntriesConcat(a[1..], b);
    }
  }

  /** The map builder keeps exactly the entries whose key and value are both non-null. */
  lemma {:induction false} PresentEntriesMembers(entries: seq<MapEntry>, k: string, v: string)
    ensures Attribute(Some(k), v) in PresentEntries(entries) <==> MapEntry(Some(k), Some(v)) in entries
    ensures Attribute(None, v) !in PresentEntries(entries)
  {
    if entries != [] {
      PresentEntriesMembers(entries[1..], k, v);
      assert entries == [entries[0]] + entries[1..];
    }
  }

  /** When no entry is null, the map builder drops nothing. */
  lemma {:induction false} PresentEntriesComplete(entries: seq<MapEntry>)
    requires forall i :: 0 <= i < |entries| ==> entries[i].key.Some? && entries[i].value.Some?
    ensures |PresentEntries(entries)| == |entries|
  {
    if entries != [] {
      PresentEntriesComplete(entries[1..]);
    }
  }

  /** The pair builder distributes over concatenation: it keeps the row order. */
  lemma {:induction false} AttributesOfPairsConcat(a: seq<Pair>, b: seq<Pair>)
    ensures AttributesOfPairs(a + b) == AttributesOfPairs(a) + AttributesOfPairs(b)
  {
    if a == [] {
      assert a + b == b;
    } else {
      assert (a + b)[0] == a[0];
      assert (a + b)[1..] == a[1..] + b;
      AttributesOfPairsConcat(a[1..], b);
    }
  }
}
