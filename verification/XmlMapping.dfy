/** The schema-driven mapping between XML trees and models (as4/models/common.py). */
module XmlMapping {
  import opened Terms

  /** How often a child field may occur: `One` and `AtMostOne` are the fields declared with the
      exactly-one validator, the other two are lists. */
  datatype Multiplicity = One | AtMostOne | AnyNumber | AtLeastOne

  /** The aliased fields of a model class, in declaration order. */
  datatype Schema =
    | End
    | AttributeField(name: AttributeName, required: bool, rest: Schema)
    | TextField(required: bool, rest: Schema)
    | ChildField(tag: Tag, multiplicity: Multiplicity, schema: Schema, rest: Schema)

  /** A model: field values by alias. An optional field that is None, and an empty list,
      have no entry. */
  datatype Model = Model(attributes: map<AttributeName, string>, text: Option<Text>, children: map<Tag, seq<Model>>)

  datatype LoadError =
    | MissingAttribute(name: AttributeName)
    | MissingText
    | MissingChild(tag: Tag)
    | RepeatedChild(tag: Tag)
    | NoElement(tag: Tag)

  // ---------------------------------------------------------------- reading a model

  const EMPTY_MODEL := Model(map[], None, map[])

  function Children(m: Model, t: Tag): seq<Model> {
    if t in m.children then m.children[t] else []
  }

  function OptionalChild(m: Model, t: Tag): Option<Model> {
    if Children(m, t) == [] then None else Some(Children(m, t)[0])
  }

  function Child(m: Model, t: Tag): Model {
    OptionalChild(m, t).GetOr(EMPTY_MODEL)
  }

  function AttributeOf(m: Model, n: AttributeName): Option<string> {
    if n in m.attributes then Some(m.attributes[n]) else None
  }

  function TextOf(m: Model): Text {
    m.text.GetOr(Plain(""))
  }

  // ---------------------------------------------------------------- element to dictionary

  function Tagged(es: seq<Element>, t: Tag): seq<Element> {
    if es == [] then [] else (if es[0].tag == t then [es[0]] else []) + Tagged(es[1..], t)
  }

  function Tags(es: seq<Element>): set<Tag> {
    set e | e in es :: e.tag
  }

  function CopyInto(copied: map<AttributeName, string>, attributes: seq<Attribute>): map<AttributeName, string>
    decreases |attributes|
  {
    if attributes == [] then copied
    else CopyInto(copied[attributes[0].name := attributes[0].value], attributes[1..])
  }

  function AttributeMap(attributes: seq<Attribute>): map<AttributeName, string> {
    CopyInto(map[], attributes)
  }

  function StrippedText(t: Text): Option<Text> {
    if Blank(t) then None else Some(Trim(t))
  }

  /** The dictionary of an element: children grouped by tag in document order, attributes,
      and the stripped text unless it is blank. */
  function ToDict(e: Element): Model {
    Model(AttributeMap(e.attributes), StrippedText(e.text), Grouped(e.children))
  }

  function Grouped(es: seq<Element>): map<Tag, seq<Model>> {
    map t | t in Tags(es) :: DictsOf(es, t)
  }

  function DictsOf(es: seq<Element>, t: Tag): seq<Model> {
    if es == [] then [] else (if es[0].tag == t then [ToDict(es[0])] else []) + DictsOf(es[1..], t)
  }

  // ---------------------------------------------------------------- validation

  /** The child field with tag `t`, with the fields after it; `End` when there is none. */
  function FieldFor(s: Schema, t: Tag): (f: Schema)
    ensures f.ChildField? ==> f.tag == t && f.schema < s
    ensures f.ChildField? || f.End?
    decreases s
  {
    match s
    case End => End
    case AttributeField(_, _, rest) => FieldFor(rest, t)
    case TextField(_, rest) => FieldFor(rest, t)
    case ChildField(u, _, _, rest) => if t == u then s else FieldFor(rest, t)
  }

  predicate Declares(s: Schema, t: Tag) {
    FieldFor(s, t).ChildField?
  }

  function SchemaOf(s: Schema, t: Tag): (r: Schema)
    requires Declares(s, t)
    ensures r < s
  {
    FieldFor(s, t).schema
  }

  predicate HasText(s: Schema) {
    match s
    case End => false
    case AttributeField(_, _, rest) => HasText(rest)
    case TextField(_, _) => true
    case ChildField(_, _, _, rest) => HasText(rest)
  }

  predicate HasAttribute(s: Schema, n: AttributeName)
    decreases s
  {
    match s
    case End => false
    case AttributeField(m, _, rest) => m == n || HasAttribute(rest, n)
    case TextField(_, rest) => HasAttribute(rest, n)
    case ChildField(_, _, _, rest) => HasAttribute(rest, n)
  }

  /** The first validation error of a dictionary, fields in declaration order, depth first. */
  function Check(s: Schema, d: Model): Option<LoadError>
    decreases s, d, 0
  {
    match s
    case End => None
    case AttributeField(n, required, rest) =>
      if required && n !in d.attributes then Some(MissingAttribute(n)) else Check(rest, d)
    case TextField(required, rest) =>
      if required && d.text.None? then Some(MissingText) else Check(rest, d)
    case ChildField(t, multiplicity, schema, rest) =>
      var e := CheckPresence(t, multiplicity, d);
      if e.Some? then e
      else
        var inside := CheckAll(schema, Children(d, t));
        if inside.Some? then inside else Check(rest, d)
  }

  function CheckPresence(t: Tag, multiplicity: Multiplicity, d: Model): Option<LoadError> {
    if t !in d.children then (if multiplicity.One? || multiplicity.AtLeastOne? then Some(MissingChild(t)) else None)
    else if (multiplicity.One? || multiplicity.AtMostOne?) && |d.children[t]| != 1 then
      Some(if |d.children[t]| > 1 then RepeatedChild(t) else NoElement(t))
    else None
  }

  function CheckAll(s: Schema, ds: seq<Model>): Option<LoadError>
    decreases s, ds, 0
  {
    if ds == [] then None
    else
      var e := Check(s, ds[0]);
      if e.Some? then e else CheckAll(s, ds[1..])
  }

  /** The declared part of a dictionary, at every depth: undeclared keys are ignored. */
  function Project(s: Schema, d: Model): Model
    decreases s, d, 0
  {
    match s
    case End => EMPTY_MODEL
    case AttributeField(n, _, rest) =>
      var m := Project(rest, d);
      if n in d.attributes then m.(attributes := m.attributes[n := d.attributes[n]]) else m
    case TextField(_, rest) => Project(rest, d).(text := d.text)
    case ChildField(t, _, schema, rest) =>
      var m := Project(rest, d);
      if t in d.children then m.(children := m.children[t := ProjectAll(schema, Children(d, t))]) else m
  }

  function ProjectAll(s: Schema, ds: seq<Model>): (r: seq<Model>)
    ensures |r| == |ds|
    decreases s, ds, 0
  {
    if ds == [] then [] else [Project(s, ds[0])] + ProjectAll(s, ds[1..])
  }

  /** Validating a tree against a schema. */
  function Load(s: Schema, e: Element): Result<Model, LoadError> {
    var error := Check(s, ToDict(e));
    if error.Some? then Err(error.value) else Ok(Project(s, ToDict(e)))
  }

  // ---------------------------------------------------------------- model to element

  function Dump(s: Schema, t: Tag, m: Model): Element
    decreases s, m, 1
  {
    Element(t, DumpAttributes(s, m), DumpText(s, m), DumpChildren(s, m))
  }

  /** An attribute is written when its value is not empty. */
  function DumpAttributes(s: Schema, m: Model): seq<Attribute>
    decreases s, m
  {
    match s
    case End => []
    case AttributeField(n, _, rest) =>
      (if n in m.attributes && m.attributes[n] != "" then [Attribute(n, m.attributes[n])] else [])
      + DumpAttributes(rest, m)
    case TextField(_, rest) => DumpAttributes(rest, m)
    case ChildField(_, _, _, rest) => DumpAttributes(rest, m)
  }

  function DumpText(s: Schema, m: Model): Text {
    if HasText(s) then TextOf(m) else Plain("")
  }

  function DumpChildren(s: Schema, m: Model): seq<Element>
    decreases s, m, 0
  {
    match s
    case End => []
    case AttributeField(_, _, rest) => DumpChildren(rest, m)
    case TextField(_, rest) => DumpChildren(rest, m)
    case ChildField(t, _, schema, rest) => DumpAll(schema, t, Children(m, t)) + DumpChildren(rest, m)
  }

  function DumpAll(s: Schema, t: Tag, ms: seq<Model>): (es: seq<Element>)
    ensures |es| == |ms|
    decreases s, ms, 0
  {
    if ms == [] then [] else [Dump(s, t, ms[0])] + DumpAll(s, t, ms[1..])
  }

  // ---------------------------------------------------------------- what survives a dump

  /** No class, at any depth, has two child fields with one alias. `seen` are the aliases of the
      fields before `s` in its own class. */
  predicate DistinctFields(s: Schema, seen: set<Tag>)
    decreases s
  {
    match s
    case End => true
    case AttributeField(_, _, rest) => DistinctFields(rest, seen)
    case TextField(_, rest) => DistinctFields(rest, seen)
    case ChildField(t, _, schema, rest) =>
      t !in seen && DistinctFields(schema, {}) && DistinctFields(rest, seen + {t})
  }

  predicate DistinctAliases(s: Schema) {
    DistinctFields(s, {})
  }

  lemma {:induction false} SeenIsNotDeclared(s: Schema, seen: set<Tag>, t: Tag)
    requires DistinctFields(s, seen) && t in seen
    ensures !Declares(s, t)
  {
    match s
    case End =>
    case AttributeField(_, _, rest) => SeenIsNotDeclared(rest, seen, t);
    case TextField(_, rest) => SeenIsNotDeclared(rest, seen, t);
    case ChildField(u, _, _, rest) => SeenIsNotDeclared(rest, seen + {u}, t);
  }

  /** What a dump preserves: declared fields, without empty attributes, blank text, surrounding
      white space and empty lists. */
  function Norm(s: Schema, m: Model): Model
    decreases s, m, 0
  {
    match s
    case End => EMPTY_MODEL
    case AttributeField(n, _, rest) =>
      var r := Norm(rest, m);
      if n in m.attributes && m.attributes[n] != "" then r.(attributes := r.attributes[n := m.attributes[n]]) else r
    case TextField(_, rest) => Norm(rest, m).(text := StrippedText(TextOf(m)))
    case ChildField(t, _, schema, rest) =>
      var r := Norm(rest, m);
      if Children(m, t) != [] then r.(children := r.children[t := NormAll(schema, Children(m, t))]) else r
  }

  function NormAll(s: Schema, ms: seq<Model>): (r: seq<Model>)
    ensures |r| == |ms|
    decreases s, ms, 0
  {
    if ms == [] then [] else [Norm(s, ms[0])] + NormAll(s, ms[1..])
  }

  lemma ProjectEach(s: Schema, ds: seq<Model>)
    ensures forall i :: 0 <= i < |ds| ==> ProjectAll(s, ds)[i] == Project(s, ds[i])
  {
  }

  lemma NormEach(s: Schema, ms: seq<Model>)
    ensures forall i :: 0 <= i < |ms| ==> NormAll(s, ms)[i] == Norm(s, ms[i])
  {
  }

  lemma DumpEach(s: Schema, t: Tag, ms: seq<Model>)
    ensures forall i :: 0 <= i < |ms| ==> DumpAll(s, t, ms)[i] == Dump(s, t, ms[i])
  {
  }

  // ---------------------------------------------------------------- dump, then parse

  lemma {:induction false} DictsConcat(a: seq<Element>, b: seq<Element>, t: Tag)
    ensures DictsOf(a + b, t) == DictsOf(a, t) + DictsOf(b, t)
  {
    if a == [] {
      assert a + b == b;
    } else {
      var first := if a[0].tag == t then [ToDict(a[0])] else [];
      assert (a + b)[1..] == a[1..] + b;
      assert DictsOf(a, t) == first + DictsOf(a[1..], t);
      assert DictsOf(a + b, t) == first + DictsOf(a[1..] + b, t);
      DictsConcat(a[1..], b, t);
      ConcatAssociates(first, DictsOf(a[1..], t), DictsOf(b, t));
    }
  }

  lemma DictChildren(e: Element, t: Tag)
    ensures Children(ToDict(e), t) == DictsOf(e.children, t)
    ensures t in ToDict(e).children <==> DictsOf(e.children, t) != []
  {
    DictsTagged(e.children, t);
    assert ToDict(e).children == Grouped(e.children);
  }

  lemma DictsAreOfTagged(es: seq<Element>, t: Tag)
    ensures |DictsOf(es, t)| == |Tagged(es, t)|
    ensures forall i :: 0 <= i < |Tagged(es, t)| ==> DictsOf(es, t)[i] == ToDict(Tagged(es, t)[i])
  {
  }

  lemma DictsTagged(es: seq<Element>, t: Tag)
    ensures t in Tags(es) <==> DictsOf(es, t) != []
  {
    if es != [] {
      DictsTagged(es[1..], t);
      assert es == [es[0]] + es[1..];
    }
  }

  /** The children of a dumped element, read back one field at a time. */
  lemma {:induction false} DumpedChildren(s: Schema, seen: set<Tag>, m: Model, t: Tag)
    requires DistinctFields(s, seen)
    ensures DictsOf(DumpChildren(s, m), t) == if Declares(s, t) then NormAll(SchemaOf(s, t), Children(m, t)) else []
    decreases s, m, 0
  {
    match s
    case End =>
    case AttributeField(_, _, rest) => DumpedChildren(rest, seen, m, t);
    case TextField(_, rest) => DumpedChildren(rest, seen, m, t);
    case ChildField(u, _, schema, rest) =>
      DictsConcat(DumpAll(schema, u, Children(m, u)), DumpChildren(rest, m), t);
      DumpedList(schema, u, Children(m, u), t);
      DumpedChildren(rest, seen + {u}, m, t);
      SeenIsNotDeclared(rest, seen + {u}, u);
  }

  lemma {:induction false} DumpedList(s: Schema, tag: Tag, ms: seq<Model>, t: Tag)
    requires DistinctAliases(s)
    ensures DictsOf(DumpAll(s, tag, ms), t) == if t == tag then NormAll(s, ms) else []
    decreases s, ms, 0
  {
    if ms != [] {
      DumpDict(s, tag, ms[0]);
      DumpedList(s, tag, ms[1..], t);
    }
  }

  lemma {:induction false} TaggedConcat(a: seq<Element>, b: seq<Element>, t: Tag)
    ensures Tagged(a + b, t) == Tagged(a, t) + Tagged(b, t)
  {
    if a == [] {
      assert a + b == b;
    } else {
      var first := if a[0].tag == t then [a[0]] else [];
      assert (a + b)[1..] == a[1..] + b;
      TaggedConcat(a[1..], b, t);
      ConcatAssociates(first, Tagged(a[1..], t), Tagged(b, t));
    }
  }

  lemma TaggedList(s: Schema, tag: Tag, ms: seq<Model>, t: Tag)
    ensures Tagged(DumpAll(s, tag, ms), t) == if t == tag then DumpAll(s, tag, ms) else []
  {
    DumpEach(s, tag, ms);
    TaggedAlike(DumpAll(s, tag, ms), tag, t);
  }

  lemma {:induction false} TaggedAlike(es: seq<Element>, tag: Tag, t: Tag)
    requires forall i :: 0 <= i < |es| ==> es[i].tag == tag
    ensures Tagged(es, t) == if t == tag then es else []
  {
    if es != [] {
      TaggedAlike(es[1..], tag, t);
      assert es == [es[0]] + es[1..];
    }
  }

  /** The elements that a dump writes for one field, and for no other. */
  lemma {:induction false} DumpedTagged(s: Schema, seen: set<Tag>, m: Model, t: Tag)
    requires DistinctFields(s, seen)
    ensures Tagged(DumpChildren(s, m), t) == if Declares(s, t) then DumpAll(SchemaOf(s, t), t, Children(m, t)) else []
  {
    match s
    case End =>
    case AttributeField(_, _, rest) => DumpedTagged(rest, seen, m, t);
    case TextField(_, rest) => DumpedTagged(rest, seen, m, t);
    case ChildField(u, _, schema, rest) =>
      TaggedConcat(DumpAll(schema, u, Children(m, u)), DumpChildren(rest, m), t);
      TaggedList(schema, u, Children(m, u), t);
      DumpedTagged(rest, seen + {u}, m, t);
      SeenIsNotDeclared(rest, seen + {u}, u);
  }

  /** The attributes that a dump writes. */
  predicate Kept(s: Schema, m: Model, n: AttributeName) {
    HasAttribute(s, n) && n in m.attributes && m.attributes[n] != ""
  }

  lemma CopyCons(copied: map<AttributeName, string>, a: Attribute, rest: seq<Attribute>)
    ensures CopyInto(copied, [a] + rest) == CopyInto(copied[a.name := a.value], rest)
  {
    assert ([a] + rest)[1..] == rest;
  }

  /** What one attribute of a copied dump is: the model's value when it was written. */
  ghost predicate CopiedAs(result: map<AttributeName, string>,
                           copied: map<AttributeName, string>, kept: bool, m: Model, n: AttributeName)
    requires kept ==> n in m.attributes
  {
    && (n in result <==> n in copied || kept)
    && (n in result ==> result[n] == if kept then m.attributes[n] else copied[n])
  }

  lemma {:induction false} DumpedAttributes(s: Schema, m: Model, copied: map<AttributeName, string>, n: AttributeName)
    ensures CopiedAs(CopyInto(copied, DumpAttributes(s, m)), copied, Kept(s, m, n), m, n)
    decreases s
  {
    match s
    case End =>
    case AttributeField(a, _, rest) =>
      if a in m.attributes && m.attributes[a] != "" {
        CopyCons(copied, Attribute(a, m.attributes[a]), DumpAttributes(rest, m));
        DumpedAttributes(rest, m, copied[a := m.attributes[a]], n);
      } else {
        assert DumpAttributes(s, m) == DumpAttributes(rest, m);
        DumpedAttributes(rest, m, copied, n);
      }
    case TextField(_, rest) => DumpedAttributes(rest, m, copied, n);
    case ChildField(_, _, _, rest) => DumpedAttributes(rest, m, copied, n);
  }

  lemma DumpedAttributeMap(s: Schema, m: Model)
    ensures AttributeMap(DumpAttributes(s, m)) == Norm(s, m).attributes
  {
    forall n
      ensures CopiedAs(AttributeMap(DumpAttributes(s, m)), map[], Kept(s, m, n), m, n)
      ensures n in Norm(s, m).attributes <==> Kept(s, m, n)
      ensures n in Norm(s, m).attributes ==> Norm(s, m).attributes[n] == m.attributes[n]
    {
      DumpedAttributes(s, m, map[], n);
      NormAttributes(s, m, n);
    }
  }

  lemma {:induction false} NormAttributes(s: Schema, m: Model, n: AttributeName)
    ensures n in Norm(s, m).attributes <==> Kept(s, m, n)
    ensures n in Norm(s, m).attributes ==> Norm(s, m).attributes[n] == m.attributes[n]
  {
    match s
    case End =>
    case AttributeField(_, _, rest) => NormAttributes(rest, m, n);
    case TextField(_, rest) => NormAttributes(rest, m, n);
    case ChildField(_, _, _, rest) => NormAttributes(rest, m, n);
  }

  lemma NormText(s: Schema, m: Model)
    ensures Norm(s, m).text == StrippedText(DumpText(s, m))
  {
  }

  lemma {:induction false} NormTags(s: Schema, m: Model, t: Tag)
    ensures t in Norm(s, m).children <==> Declares(s, t) && Children(m, t) != []
  {
    if !s.End? {
      NormTags(s.rest, m, t);
      NormTagStep(s, m, t);
      DeclaredStep(s, t);
    }
  }

  lemma NormTagStep(s: Schema, m: Model, t: Tag)
    requires !s.End?
    ensures t in Norm(s, m).children <==>
              t in Norm(s.rest, m).children || (s.ChildField? && s.tag == t && Children(m, t) != [])
  {
  }

  lemma DeclaredStep(s: Schema, t: Tag)
    requires !s.End?
    ensures Declares(s, t) <==> Declares(s.rest, t) || (s.ChildField? && s.tag == t)
  {
  }

  lemma {:induction false} NormChildren(s: Schema, m: Model, t: Tag)
    requires Declares(s, t)
    ensures Children(Norm(s, m), t) == NormAll(SchemaOf(s, t), Children(m, t))
  {
    match s
    case AttributeField(_, _, rest) => NormChildren(rest, m, t);
    case TextField(_, rest) => NormChildren(rest, m, t);
    case ChildField(u, _, _, rest) =>
      if u != t {
        NormChildren(rest, m, t);
      } else {
        NormTags(rest, m, t);
      }
  }

  lemma {:induction false} NormEmpty(s: Schema)
    ensures Norm(s, EMPTY_MODEL) == EMPTY_MODEL
  {
    if !s.End? {
      NormEmpty(s.rest);
    }
  }

  /** Reading a dumped model through its accessors. */
  lemma NormChild(s: Schema, m: Model, t: Tag)
    requires Declares(s, t)
    ensures Child(Norm(s, m), t) == Norm(SchemaOf(s, t), Child(m, t))
    ensures OptionalChild(Norm(s, m), t).Some? <==> OptionalChild(m, t).Some?
  {
    NormChildren(s, m, t);
    NormEach(SchemaOf(s, t), Children(m, t));
    NormEmpty(SchemaOf(s, t));
  }

  lemma NormAttributeOr(s: Schema, m: Model, n: AttributeName)
    requires HasAttribute(s, n)
    ensures AttributeOf(Norm(s, m), n).GetOr("") == AttributeOf(m, n).GetOr("")
  {
    NormAttributes(s, m, n);
  }

  lemma NormAttributeSome(s: Schema, m: Model, n: AttributeName, value: string)
    requires HasAttribute(s, n) && value != ""
    ensures AttributeOf(Norm(s, m), n) == Some(value) <==> AttributeOf(m, n) == Some(value)
  {
    NormAttributes(s, m, n);
  }

  lemma NormTextOr(s: Schema, m: Model)
    requires HasText(s)
    ensures TextOf(Norm(s, m)) == Trim(TextOf(m))
  {
    NormText(s, m);
  }

  lemma NormChildText(s: Schema, m: Model, t: Tag)
    requires Declares(s, t) && HasText(SchemaOf(s, t))
    ensures TextOf(Child(Norm(s, m), t)) == Trim(TextOf(Child(m, t)))
  {
    NormChild(s, m, t);
    NormTextOr(SchemaOf(s, t), Child(m, t));
  }

  lemma NormChildAttribute(s: Schema, m: Model, t: Tag, n: AttributeName)
    requires Declares(s, t) && HasAttribute(SchemaOf(s, t), n)
    ensures AttributeOf(Child(Norm(s, m), t), n).GetOr("") == AttributeOf(Child(m, t), n).GetOr("")
  {
    NormChild(s, m, t);
    NormAttributeOr(SchemaOf(s, t), Child(m, t), n);
  }

  /** Dumping a model and reading the tree back as a dictionary loses exactly the undeclared
      entries, empty attributes, blank text, surrounding white space and empty lists. */
  lemma {:induction false} DumpDict(s: Schema, t: Tag, m: Model)
    requires DistinctAliases(s)
    ensures ToDict(Dump(s, t, m)) == Norm(s, m)
    decreases s, m, 1
  {
    DumpedAttributeMap(s, m);
    NormText(s, m);
    var es := DumpChildren(s, m);
    forall u
      ensures u in Grouped(es) <==> u in Norm(s, m).children
      ensures u in Grouped(es) ==> Grouped(es)[u] == Norm(s, m).children[u]
    {
      DictsTagged(es, u);
      DumpedChildren(s, {}, m, u);
      NormTags(s, m, u);
      if Declares(s, u) {
        NormChildren(s, m, u);
      }
    }
    assert Grouped(es) == Norm(s, m).children;
  }

  lemma {:induction false} ProjectAttributes(s: Schema, d: Model, n: AttributeName)
    ensures n in Project(s, d).attributes <==> HasAttribute(s, n) && n in d.attributes
    ensures n in Project(s, d).attributes ==> Project(s, d).attributes[n] == d.attributes[n]
  {
    match s
    case End =>
    case AttributeField(_, _, rest) => ProjectAttributes(rest, d, n);
    case TextField(_, rest) => ProjectAttributes(rest, d, n);
    case ChildField(_, _, _, rest) => ProjectAttributes(rest, d, n);
  }

  lemma ProjectText(s: Schema, d: Model)
    ensures Project(s, d).text == if HasText(s) then d.text else None
  {
  }

  lemma {:induction false} ProjectTags(s: Schema, d: Model, t: Tag)
    ensures t in Project(s, d).children <==> Declares(s, t) && t in d.children
  {
    if !s.End? {
      ProjectTags(s.rest, d, t);
      ProjectTagStep(s, d, t);
      DeclaredStep(s, t);
    }
  }

  lemma ProjectTagStep(s: Schema, d: Model, t: Tag)
    requires !s.End?
    ensures t in Project(s, d).children <==>
              t in Project(s.rest, d).children || (s.ChildField? && s.tag == t && t in d.children)
  {
  }

  lemma {:induction false} ProjectChildren(s: Schema, d: Model, t: Tag)
    requires Declares(s, t)
    ensures Children(Project(s, d), t) == ProjectAll(SchemaOf(s, t), Children(d, t))
  {
    match s
    case AttributeField(_, _, rest) => ProjectChildren(rest, d, t);
    case TextField(_, rest) => ProjectChildren(rest, d, t);
    case ChildField(u, _, _, rest) =>
      if u != t {
        ProjectChildren(rest, d, t);
      } else {
        ProjectTags(rest, d, t);
      }
  }

  lemma {:induction false} ProjectNorm(s: Schema, m: Model)
    ensures Project(s, Norm(s, m)) == Norm(s, m)
    decreases s, m, 0
  {
    var n := Norm(s, m);
    var p := Project(s, n);
    forall a
      ensures a in p.attributes <==> a in n.attributes
      ensures a in p.attributes ==> p.attributes[a] == n.attributes[a]
    {
      ProjectAttributes(s, n, a);
      NormAttributes(s, m, a);
    }
    assert p.attributes == n.attributes;
    ProjectText(s, n);
    NormText(s, m);
    forall t
      ensures t in p.children <==> t in n.children
      ensures t in p.children ==> p.children[t] == n.children[t]
    {
      ProjectTags(s, n, t);
      NormTags(s, m, t);
      if Declares(s, t) {
        NormChildren(s, m, t);
        ProjectChildren(s, n, t);
        ProjectNormAll(SchemaOf(s, t), Children(m, t));
      }
    }
    assert p.children == n.children;
  }

  lemma {:induction false} ProjectNormAll(s: Schema, ms: seq<Model>)
    ensures ProjectAll(s, NormAll(s, ms)) == NormAll(s, ms)
    decreases s, ms, 0
  {
    if ms != [] {
      ProjectNorm(s, ms[0]);
      ProjectNormAll(s, ms[1..]);
    }
  }

  /** Parsing a dumped tree fails exactly when a required field was blank, and otherwise
      yields the model that was dumped, up to what a dump does not preserve. */
  lemma LoadDump(s: Schema, t: Tag, m: Model)
    requires DistinctAliases(s)
    ensures Check(s, Norm(s, m)).None? ==> Load(s, Dump(s, t, m)) == Ok(Norm(s, m))
    ensures Check(s, Norm(s, m)).Some? ==> Load(s, Dump(s, t, m)) == Err(Check(s, Norm(s, m)).value)
  {
    DumpDict(s, t, m);
    ProjectNorm(s, m);
  }

  /** A field's own constraint: required fields present, single-valued fields single, no empty
      attribute and no empty list, text trimmed and not blank. */
  predicate WellFormedField(s: Schema, m: Model) {
    match s
    case End => true
    case AttributeField(n, required, _) => (required ==> n in m.attributes)
    && (n in m.attributes ==> m.attributes[n] != "")
    case TextField(required, _) => (required ==> m.text.Some?) && (m.text.Some? ==> Tidy(m.text.value))
    case ChildField(t, multiplicity, _, _) =>
      && (multiplicity.One? || multiplicity.AtLeastOne? ==> t in m.children)
      && (t in m.children ==> m.children[t] != [])
      && (multiplicity.One? || multiplicity.AtMostOne? ==> t in m.children ==> |m.children[t]| == 1)
  }

  /** Every declared field meets its constraint, at every depth. */
  predicate WellFormedFields(s: Schema, m: Model)
    decreases s, m, 0
  {
    && WellFormedField(s, m)
    && match s
       case End => true
       case AttributeField(_, _, rest) => WellFormedFields(rest, m)
       case TextField(_, rest) => WellFormedFields(rest, m)
       case ChildField(t, _, schema, rest) => AllWellFormed(schema, Children(m, t)) && WellFormedFields(rest, m)
  }

  predicate AllWellFormed(s: Schema, ms: seq<Model>)
    decreases s, ms, 0
  {
    ms == [] || (WellFormed(s, ms[0]) && AllWellFormed(s, ms[1..]))
  }

  /** No entry besides the declared fields. */
  predicate OnlyDeclared(s: Schema, m: Model) {
    && (forall n | n in m.attributes :: HasAttribute(s, n))
    && (m.text.Some? ==> HasText(s))
    && (forall t | t in m.children :: Declares(s, t))
  }

  predicate WellFormed(s: Schema, m: Model)
    decreases s, m, 1
  {
    OnlyDeclared(s, m) && WellFormedFields(s, m)
  }

  lemma {:induction false} WellFormedChecks(s: Schema, m: Model)
    requires WellFormedFields(s, m)
    ensures Check(s, m).None?
    decreases s, m, 0
  {
    match s
    case End =>
    case AttributeField(_, _, rest) => WellFormedChecks(rest, m);
    case TextField(_, rest) => WellFormedChecks(rest, m);
    case ChildField(t, _, schema, rest) =>
      WellFormedChecks(rest, m);
      WellFormedAllCheck(schema, Children(m, t));
  }

  lemma {:induction false} WellFormedAllCheck(s: Schema, ms: seq<Model>)
    requires AllWellFormed(s, ms)
    ensures CheckAll(s, ms).None? && NormAll(s, ms) == ms
    decreases s, ms, 0
  {
    if ms != [] {
      var first, rest := ms[0], ms[1..];
      WellFormedChecks(s, first);
      WellFormedNorm(s, first);
      WellFormedAllCheck(s, rest);
      assert NormAll(s, ms) == [Norm(s, first)] + NormAll(s, rest);
      assert ms == [first] + rest;
    }
  }

  lemma {:induction false} WellFormedNorm(s: Schema, m: Model)
    requires WellFormed(s, m)
    ensures Norm(s, m) == m
    decreases s, m, 1
  {
    var n := Norm(s, m);
    forall a
      ensures a in n.attributes <==> a in m.attributes
    {
      NormAttributes(s, m, a);
      WellFormedAttributes(s, m, a);
    }
    forall a | a in n.attributes
      ensures n.attributes[a] == m.attributes[a]
    {
      NormAttributes(s, m, a);
    }
    assert n.attributes == m.attributes;
    WellFormedText(s, m);
    forall t
      ensures t in n.children <==> t in m.children
      ensures t in n.children ==> n.children[t] == m.children[t]
    {
      NormTags(s, m, t);
      WellFormedChildren(s, m, t);
      if Declares(s, t) {
        NormChildren(s, m, t);
        WellFormedAllCheck(SchemaOf(s, t), Children(m, t));
      }
    }
    assert n.children == m.children;
  }

  lemma WellFormedText(s: Schema, m: Model)
    requires WellFormedFields(s, m)
    ensures HasText(s) ==> Norm(s, m).text == m.text
    ensures !HasText(s) ==> Norm(s, m).text == None
  {
  }

  lemma {:induction false} WellFormedAttributes(s: Schema, m: Model, n: AttributeName)
    requires WellFormedFields(s, m)
    ensures HasAttribute(s, n) && n in m.attributes ==> m.attributes[n] != ""
  {
    match s
    case End =>
    case AttributeField(_, _, rest) => WellFormedAttributes(rest, m, n);
    case TextField(_, rest) => WellFormedAttributes(rest, m, n);
    case ChildField(_, _, _, rest) => WellFormedAttributes(rest, m, n);
  }

  lemma {:induction false} WellFormedChildren(s: Schema, m: Model, t: Tag)
    requires WellFormedFields(s, m)
    ensures Declares(s, t) && t in m.children ==> m.children[t] != []
    ensures Declares(s, t) ==> AllWellFormed(SchemaOf(s, t), Children(m, t))
  {
    match s
    case End =>
    case AttributeField(_, _, rest) => WellFormedChildren(rest, m, t);
    case TextField(_, rest) => WellFormedChildren(rest, m, t);
    case ChildField(_, _, _, rest) => WellFormedChildren(rest, m, t);
  }

  /** The round trip: a well-formed model is what parsing its own dump yields. */
  lemma RoundTrip(s: Schema, t: Tag, m: Model)
    requires DistinctAliases(s) && WellFormed(s, m)
    ensures Load(s, Dump(s, t, m)) == Ok(m)
  {
    WellFormedNorm(s, m);
    WellFormedChecks(s, m);
    LoadDump(s, t, m);
  }

  // ---------------------------------------------------------------- the order of a dump

  /** The place of a tag among a class's child fields. */
  function Place(s: Schema, t: Tag): nat {
    match s
    case End => 0
    case AttributeField(_, _, rest) => Place(rest, t)
    case TextField(_, rest) => Place(rest, t)
    case ChildField(u, _, _, rest) => if u == t then 0 else 1 + Place(rest, t)
  }

  ghost predicate InOrder(s: Schema, es: seq<Element>) {
    forall i, j | 0 <= i < j < |es| :: Place(s, es[i].tag) <= Place(s, es[j].tag)
  }

  lemma DumpedTags(s: Schema, t: Tag, ms: seq<Model>)
    ensures forall e | e in DumpAll(s, t, ms) :: e.tag == t
  {
  }

  lemma {:induction false} DumpedAreDeclared(s: Schema, m: Model)
    ensures forall e | e in DumpChildren(s, m) :: Declares(s, e.tag)
  {
    if !s.End? {
      DumpedAreDeclared(s.rest, m);
      if s.ChildField? {
        DumpedTags(s.schema, s.tag, Children(m, s.tag));
      }
      forall e | e in DumpChildren(s, m)
        ensures Declares(s, e.tag)
      {
        DeclaredStep(s, e.tag);
      }
    }
  }

  /** A dump writes its child elements in the order in which the class declares them. */
  lemma {:induction false} DumpIsInOrder(s: Schema, seen: set<Tag>, m: Model)
    requires DistinctFields(s, seen)
    ensures InOrder(s, DumpChildren(s, m))
  {
    match s
    case End =>
    case AttributeField(_, _, rest) => DumpIsInOrder(rest, seen, m);
    case TextField(_, rest) => DumpIsInOrder(rest, seen, m);
    case ChildField(u, _, schema, rest) =>
      DumpIsInOrder(rest, seen + {u}, m);
      DumpedTags(schema, u, Children(m, u));
      DumpedAreDeclared(rest, m);
      SeenIsNotDeclared(rest, seen + {u}, u);
      FieldsInOrder(s, DumpAll(schema, u, Children(m, u)), DumpChildren(rest, m));
  }

  lemma FieldsInOrder(s: Schema, first: seq<Element>, later: seq<Element>)
    requires s.ChildField? && (forall e | e in first :: e.tag == s.tag) && (forall e | e in later :: e.tag != s.tag)
    requires InOrder(s.rest, later)
    ensures InOrder(s, first + later)
  {
    var es := first + later;
    forall i, j | 0 <= i < j < |es|
      ensures Place(s, es[i].tag) <= Place(s, es[j].tag)
    {
      if i < |first| {
        assert es[i] in first;
      } else {
        assert es[i] == later[i - |first|] && es[j] == later[j - |first|];
        assert es[i] in later && es[j] in later;
      }
    }
  }

  // ---------------------------------------------------------------- what loading guarantees

  predicate Single(f: Schema) {
    f.ChildField? && (f.multiplicity.One? || f.multiplicity.AtMostOne?)
  }

  /** Somewhere inside, a single-valued field occurs more than once. */
  predicate RepeatsSingular(s: Schema, d: Model)
    decreases s, d, 0
  {
    match s
    case End => false
    case AttributeField(_, _, rest) => RepeatsSingular(rest, d)
    case TextField(_, rest) => RepeatsSingular(rest, d)
    case ChildField(t, _, schema, rest) =>
      || (Single(s) && |Children(d, t)| > 1)
      || AnyRepeatsSingular(schema, Children(d, t))
      || RepeatsSingular(rest, d)
  }

  predicate AnyRepeatsSingular(s: Schema, ds: seq<Model>)
    decreases s, ds, 0
  {
    ds != [] && (RepeatsSingular(s, ds[0]) || AnyRepeatsSingular(s, ds[1..]))
  }

  /** A single-valued child that occurs twice, at any depth, makes validation fail. */
  lemma {:induction false} RepeatedChildIsRefused(s: Schema, e: Element)
    requires RepeatsSingular(s, ToDict(e))
    ensures Load(s, e).Err?
  {
    RepetitionFails(s, ToDict(e));
  }

  lemma {:induction false} RepetitionFails(s: Schema, d: Model)
    requires RepeatsSingular(s, d)
    ensures Check(s, d).Some?
    decreases s, d, 0
  {
    match s
    case AttributeField(_, _, rest) => RepetitionFails(rest, d);
    case TextField(_, rest) => RepetitionFails(rest, d);
    case ChildField(t, _, schema, rest) =>
      if AnyRepeatsSingular(schema, Children(d, t)) {
        RepetitionInsideFails(schema, Children(d, t));
      } else if RepeatsSingular(rest, d) {
        RepetitionFails(rest, d);
      }
  }

  lemma {:induction false} RepetitionInsideFails(s: Schema, ds: seq<Model>)
    requires AnyRepeatsSingular(s, ds)
    ensures CheckAll(s, ds).Some?
    decreases s, ds, 0
  {
    if RepeatsSingular(s, ds[0]) {
      RepetitionFails(s, ds[0]);
    } else {
      RepetitionInsideFails(s, ds[1..]);
    }
  }

  lemma CheckedField(s: Schema, d: Model, t: Tag)
    requires Check(s, d).None? && Declares(s, t)
    ensures CheckPresence(t, FieldFor(s, t).multiplicity, d).None?
    ensures CheckAll(SchemaOf(s, t), Children(d, t)).None?
  {
  }

  lemma CheckedElements(s: Schema, ds: seq<Model>)
    requires CheckAll(s, ds).None?
    ensures forall i :: 0 <= i < |ds| ==> Check(s, ds[i]).None?
  {
  }

  /** A loaded child list has the tagged elements' models, in document order. */
  lemma LoadedChildren(s: Schema, e: Element, t: Tag)
    requires Load(s, e).Ok? && Declares(s, t)
    ensures |Children(Load(s, e).value, t)| == |Tagged(e.children, t)|
    ensures forall i :: 0 <= i < |Tagged(e.children, t)| ==>
              Load(SchemaOf(s, t), Tagged(e.children, t)[i]) == Ok(Children(Load(s, e).value, t)[i])
  {
    var d := ToDict(e);
    DictChildren(e, t);
    DictsAreOfTagged(e.children, t);
    CheckedField(s, d, t);
    CheckedElements(SchemaOf(s, t), Children(d, t));
    ProjectChildren(s, d, t);
    ProjectEach(SchemaOf(s, t), Children(d, t));
  }

  /** The first child with a tag, or the element itself when there is none. */
  function FirstTagged(e: Element, t: Tag): Element {
    var es := Tagged(e.children, t);
    if es == [] then e else es[0]
  }

  /** A single-valued field that is present is loaded from the only child with its tag. */
  lemma LoadedChild(s: Schema, e: Element, t: Tag)
    requires Load(s, e).Ok? && Single(FieldFor(s, t))
    requires FieldFor(s, t).multiplicity.One? || OptionalChild(Load(s, e).value, t).Some?
    ensures Tagged(e.children, t) == [FirstTagged(e, t)]
    ensures OptionalChild(Load(s, e).value, t).Some?
    ensures Load(SchemaOf(s, t), FirstTagged(e, t)) == Ok(Child(Load(s, e).value, t))
  {
    LoadedChildren(s, e, t);
    CheckedField(s, ToDict(e), t);
    DictChildren(e, t);
    DictsAreOfTagged(e.children, t);
  }

  // ---------------------------------------------------------------- the two loops

  lemma GroupedSnoc(es: seq<Element>, e: Element)
    ensures Grouped(es + [e])
         == Grouped(es)[e.tag := (if e.tag in Grouped(es) then Grouped(es)[e.tag] else []) + [ToDict(e)]]
  {
    var g, g' := Grouped(es), Grouped(es + [e]);
    forall t
      ensures t in g' <==> t in g || t == e.tag
      ensures t in g' && t != e.tag ==> g'[t] == g[t]
      ensures t == e.tag ==> g'[t] == (if t in g then g[t] else []) + [ToDict(e)]
    {
      DictsTagged(es, t);
      DictsTagged(es + [e], t);
      DictsConcat(es, [e], t);
      assert DictsOf(es, t) + [] == DictsOf(es, t);
    }
  }

  method CopyAttributes(attributes: seq<Attribute>) returns (copied: map<AttributeName, string>)
    ensures copied == AttributeMap(attributes)
  {
    copied := map[];
    var i := 0;
    while i < |attributes|
      invariant 0 <= i <= |attributes|
      invariant CopyInto(copied, attributes[i..]) == AttributeMap(attributes)
    {
      copied := copied[attributes[i].name := attributes[i].value];
      i := i + 1;
    }
  }

  /** element_to_dict: one pass groups the children by tag, a second one copies the attributes. */
  method ElementToDict(e: Element) returns (d: Model)
    ensures d == ToDict(e)
    decreases e
  {
    var children: map<Tag, seq<Model>> := map[];
    var i := 0;
    while i < |e.children|
      invariant 0 <= i <= |e.children|
      invariant children == Grouped(e.children[..i])
    {
      var child := e.children[i];
      var childAsDict := ElementToDict(child);
      GroupedSnoc(e.children[..i], child);
      assert e.children[..i + 1] == e.children[..i] + [child];
      children := children[child.tag := (if child.tag in children then children[child.tag] else []) + [childAsDict]];
      i := i + 1;
    }
    assert e.children[..i] == e.children;
    var attributes := CopyAttributes(e.attributes);
    var text: Option<Text> := None;
    if Trim(e.text) != Plain("") {
      text := Some(Trim(e.text));
    }
    d := Model(attributes, text, children);
  }

  /** The serialiser of a list field: one element for each value, in order. */
  method SerialiseList(s: Schema, alias: Tag, values: seq<Model>) returns (es: seq<Element>)
    ensures es == DumpAll(s, alias, values)
    decreases s, 1
  {
    es := [];
    var i := 0;
    while i < |values|
      invariant 0 <= i <= |values|
      invariant |es| == i && forall k :: 0 <= k < i ==> es[k] == Dump(s, alias, values[k])
    {
      var e := DumpToXml(s, alias, values[i]);
      es := es + [e];
      i := i + 1;
    }
    DumpEach(s, alias, values);
  }

  /** The element a dump ends with once `fields` are still to be written. */
  ghost function Finish(fields: Schema, t: Tag, m: Model, attributes: seq<Attribute>, text: Text,
                        children: seq<Element>)
    : Element
  {
    Element(t, attributes + DumpAttributes(fields, m), if HasText(fields) then TextOf(m) else text,
            children + DumpChildren(fields, m))
  }

  lemma FinishAttribute(f: Schema, t: Tag, m: Model, attributes: seq<Attribute>, text: Text, children: seq<Element>)
    requires f.AttributeField?
    ensures var written := if f.name in m.attributes && m.attributes[f.name] != "" then
                             attributes + [Attribute(f.name, m.attributes[f.name])]
                           else attributes;
            Finish(f, t, m, attributes, text, children) == Finish(f.rest, t, m, written, text, children)
  {
    if f.name in m.attributes && m.attributes[f.name] != "" {
      ConcatAssociates(attributes, [Attribute(f.name, m.attributes[f.name])], DumpAttributes(f.rest, m));
    } else {
      assert DumpAttributes(f, m) == DumpAttributes(f.rest, m);
    }
  }

  lemma FinishText(f: Schema, t: Tag, m: Model, attributes: seq<Attribute>, text: Text, children: seq<Element>)
    requires f.TextField? && (m.text.None? ==> text == Plain(""))
    ensures Finish(f, t, m, attributes, text, children)
         == Finish(f.rest, t, m, attributes, m.text.GetOr(text), children)
  {
  }

  lemma FinishChildren(f: Schema, t: Tag, m: Model, attributes: seq<Attribute>, text: Text, children: seq<Element>)
    requires f.ChildField?
    ensures Finish(f, t, m, attributes, text, children)
         == Finish(f.rest, t, m, attributes, text, children + DumpAll(f.schema, f.tag, Children(m, f.tag)))
  {
    ConcatAssociates(children, DumpAll(f.schema, f.tag, Children(m, f.tag)), DumpChildren(f.rest, m));
  }

  /** dump_to_xml: the field loop fills in attributes, text and child elements. */
  method DumpToXml(s: Schema, clarkName: Tag, m: Model) returns (e: Element)
    ensures e == Dump(s, clarkName, m)
    decreases s, 0
  {
    var attributes: seq<Attribute>, text, children: seq<Element> := [], Plain(""), [];
    var fields := s;
    while fields != End
      invariant fields == s || fields < s
      invariant Finish(fields, clarkName, m, attributes, text, children) == Dump(s, clarkName, m)
      invariant m.text.None? ==> text == Plain("")
      decreases fields
    {
      match fields {
        case AttributeField(n, _, _) =>
          FinishAttribute(fields, clarkName, m, attributes, text, children);
          if n in m.attributes && m.attributes[n] != "" {
            attributes := attributes + [Attribute(n, m.attributes[n])];
          }
        case TextField(_, _) =>
          FinishText(fields, clarkName, m, attributes, text, children);
          text := m.text.GetOr(text);
        case ChildField(t, _, schema, _) =>
          FinishChildren(fields, clarkName, m, attributes, text, children);
          var dumped := SerialiseList(schema, t, Children(m, t));
          children := children + dumped;
      }
      fields := fields.rest;
    }
    e := Element(clarkName, attributes, text, children);
  }
}
