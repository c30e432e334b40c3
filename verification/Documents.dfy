/** The identifier index of a document (as4/core/common.py, as4/utils/xml_parser.py). */
module Documents {
  import opened Terms
  import opened XmlMapping

  /** An element and its descendants. */
  function Nodes(e: Element): set<Element> {
    {e} + NodesOfAll(e.children)
  }

  function NodesOfAll(es: seq<Element>): set<Element> {
    if es == [] then {} else Nodes(es[0]) + NodesOfAll(es[1..])
  }

  datatype IdEntry = IdEntry(id: string, element: Element)

  /** Every attribute with local name `Id`, with the element that carries it, in document order. */
  function IdAttributes(e: Element): seq<IdEntry> {
    OwnIds(e, e.attributes) + IdsOfAll(e.children)
  }

  function OwnIds(e: Element, attributes: seq<Attribute>): seq<IdEntry> {
    if attributes == [] then []
    else (if NamesAnId(attributes[0].name) then [IdEntry(attributes[0].value, e)] else []) + OwnIds(e, attributes[1..])
  }

  function IdsOfAll(es: seq<Element>): seq<IdEntry> {
    if es == [] then [] else IdAttributes(es[0]) + IdsOfAll(es[1..])
  }

  /** `Err(id)` names the first identifier that occurs a second time. */
  function IndexEntries(entries: seq<IdEntry>, indexed: map<string, Element>): Result<map<string, Element>, string>
    decreases |entries|
  {
    if entries == [] then Ok(indexed)
    else if entries[0].id in indexed then Err(entries[0].id)
    else IndexEntries(entries[1..], indexed[entries[0].id := entries[0].element])
  }

  function IndexById(e: Element): Result<map<string, Element>, string> {
    IndexEntries(IdAttributes(e), map[])
  }

  method IndexElementsById(e: Element) returns (r: Result<map<string, Element>, string>)
    ensures r == IndexById(e)
  {
    var entries := IdAttributes(e);
    var indexed: map<string, Element> := map[];
    for i := 0 to |entries|
      invariant IndexEntries(entries[i..], indexed) == IndexById(e)
    {
      if entries[i].id in indexed {
        return Err(entries[i].id);
      }
      indexed := indexed[entries[i].id := entries[i].element];
    }
    r := Ok(indexed);
  }

  ghost predicate DistinctIds(entries: seq<IdEntry>) {
    forall i, j :: 0 <= i < j < |entries| ==> entries[i].id != entries[j].id
  }

  /** Every entry is mapped to its carrier, and nothing else is mapped. */
  ghost predicate IndexesExactly(index: map<string, Element>, entries: seq<IdEntry>) {
    && (forall x :: x in entries ==> x.id in index && index[x.id] == x.element)
    && (forall id :: id in index ==> IdEntry(id, index[id]) in entries)
  }

  /** Indexing succeeds exactly when no identifier is carried twice, and every identifier is then
      mapped to its only carrier. */
  lemma IndexIsExact(e: Element)
    ensures IndexById(e).Ok? <==> DistinctIds(IdAttributes(e))
    ensures IndexById(e).Ok? ==> IndexesExactly(IndexById(e).value, IdAttributes(e))
  {
    IndexedEntries(IdAttributes(e), map[]);
  }

  lemma {:induction false} IndexedEntries(entries: seq<IdEntry>, indexed: map<string, Element>)
    ensures IndexEntries(entries, indexed).Ok?
       <==> DistinctIds(entries) && forall x :: x in entries ==> x.id !in indexed
    ensures IndexEntries(entries, indexed).Ok? ==>
              var index := IndexEntries(entries, indexed).value;
              && (forall x :: x in entries ==> x.id in index && index[x.id] == x.element)
              && (forall id :: id in indexed ==> id in index && index[id] == indexed[id])
              && (forall id :: id in index ==> id in indexed || IdEntry(id, index[id]) in entries)
    decreases |entries|
  {
    if entries != [] {
      var first, rest := entries[0], entries[1..];
      assert entries == [first] + rest;
      if first.id in indexed {
        assert first in entries;
      } else {
        IndexedEntries(rest, indexed[first.id := first.element]);
        RestDistinct(entries);
      }
    }
  }

  lemma RestDistinct(entries: seq<IdEntry>)
    requires entries != []
    ensures DistinctIds(entries)
       <==> DistinctIds(entries[1..]) && forall x :: x in entries[1..] ==> x.id != entries[0].id
  {
    if DistinctIds(entries[1..]) && forall x :: x in entries[1..] ==> x.id != entries[0].id {
      forall i, j | 0 <= i < j < |entries|
        ensures entries[i].id != entries[j].id
      {
        if i == 0 {
          assert entries[j] == entries[1..][j - 1];
        } else {
          assert entries[i] == entries[1..][i - 1] && entries[j] == entries[1..][j - 1];
        }
      }
    }
    if DistinctIds(entries) {
      forall x | x in entries[1..]
        ensures x.id != entries[0].id
      {
        var k :| 0 <= k < |entries[1..]| && entries[1..][k] == x;
        assert entries[k + 1] == x;
      }
      assert forall i :: 0 <= i < |entries[1..]| ==> entries[1..][i] == entries[i + 1];
    }
  }

  /** An attribute whose local name is `Id`, in whatever namespace. */
  predicate CarriesLocalId(e: Element, id: string) {
    exists a | a in e.attributes :: a.value == id && (a.name == WsuId || a.name == PlainId || a.name.ForeignId?)
  }

  lemma {:induction false} OwnIdsAreExact(e: Element, attributes: seq<Attribute>, x: IdEntry)
    ensures x in OwnIds(e, attributes)
       <==> x.element == e && exists a | a in attributes ::
              a.value == x.id && (a.name == WsuId || a.name == PlainId || a.name.ForeignId?)
  {
    if attributes != [] {
      assert attributes == [attributes[0]] + attributes[1..];
      OwnIdsAreExact(e, attributes[1..], x);
    }
  }

  /** The listed identifiers are exactly those that some element of the document carries. */
  lemma {:induction false} IdEntriesAreExact(e: Element, x: IdEntry)
    ensures x in IdAttributes(e) <==> x.element in Nodes(e) && CarriesLocalId(x.element, x.id)
    decreases e, 1
  {
    OwnIdsAreExact(e, e.attributes, x);
    IdEntriesOfAllAreExact(e.children, x);
    if x in OwnIds(e, e.attributes) {
      assert x in IdAttributes(e);
    }
  }

  lemma {:induction false} IdEntriesOfAllAreExact(es: seq<Element>, x: IdEntry)
    ensures x in IdsOfAll(es) <==> x.element in NodesOfAll(es) && CarriesLocalId(x.element, x.id)
    decreases es, 0
  {
    if es != [] {
      IdEntriesAreExact(es[0], x);
      IdEntriesOfAllAreExact(es[1..], x);
    }
  }

  // ---------------------------------------------------------------- descending a document

  lemma NodesOfChild(es: seq<Element>, e: Element)
    requires e in es
    ensures Nodes(e) <= NodesOfAll(es)
  {
  }

  lemma TaggedAreChildren(es: seq<Element>, t: Tag)
    ensures forall e :: e in Tagged(es, t) ==> e in es && e.tag == t
  {
  }

  /** Following a path of tags stays inside the document. */
  lemma FirstTaggedIsInside(e: Element, t: Tag)
    ensures Nodes(FirstTagged(e, t)) <= Nodes(e)
    ensures Tagged(e.children, t) != [] ==> FirstTagged(e, t).tag == t
  {
    TaggedAreChildren(e.children, t);
    if Tagged(e.children, t) != [] {
      NodesOfChild(e.children, FirstTagged(e, t));
    }
  }

  lemma {:induction false} IdEntriesAreNodes(e: Element)
    ensures forall x :: x in IdAttributes(e) ==> x.element in Nodes(e)
    decreases e
  {
    OwnIdsAreOwn(e, e.attributes);
    IdEntriesOfAllAreNodes(e.children);
  }

  lemma {:induction false} IdEntriesOfAllAreNodes(es: seq<Element>)
    ensures forall x :: x in IdsOfAll(es) ==> x.element in NodesOfAll(es)
    decreases es
  {
    if es != [] {
      IdEntriesAreNodes(es[0]);
      IdEntriesOfAllAreNodes(es[1..]);
    }
  }

  lemma OwnIdsAreOwn(e: Element, attributes: seq<Attribute>)
    ensures forall x :: x in OwnIds(e, attributes) ==> x.element == e
  {
  }
}
