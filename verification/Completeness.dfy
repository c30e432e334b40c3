/** Which models a dump preserves well enough to be parsed again (as4/models/common.py). */
module Completeness {
  import opened Terms
  import opened XmlMapping

  /** Every required attribute, text and child survives a dump, and no single-valued child is repeated,
      at every depth. */
  predicate Complete(s: Schema, m: Model)
    decreases s, 0, 0
  {
    match s
    case End => true
    case AttributeField(n, required, rest) => (required ==> AttributeOf(m, n).GetOr("") != "") && Complete(rest, m)
    case TextField(required, rest) => (required ==> !Blank(TextOf(m))) && Complete(rest, m)
    case ChildField(t, multiplicity, schema, rest) =>
      && OccursAsDeclared(multiplicity, |Children(m, t)|)
      && AllComplete(schema, Children(m, t))
      && Complete(rest, m)
  }

  predicate OccursAsDeclared(multiplicity: Multiplicity, count: nat) {
    match multiplicity
    case One => count == 1
    case AtMostOne => count <= 1
    case AnyNumber => true
    case AtLeastOne => count >= 1
  }

  predicate AllComplete(s: Schema, ms: seq<Model>)
    decreases s, 1, |ms|
  {
    ms == [] || (Complete(s, ms[0]) && AllComplete(s, ms[1..]))
  }

  /** `f` is a tail of the fields of `s`. */
  ghost predicate Inherits(f: Schema, s: Schema) {
    && (forall n :: HasAttribute(f, n) ==> HasAttribute(s, n))
    && (HasText(f) ==> HasText(s))
    && (forall t :: Declares(f, t) ==> Declares(s, t) && SchemaOf(s, t) == SchemaOf(f, t))
  }

  lemma RestInherits(f: Schema, seen: set<Tag>, s: Schema)
    requires !f.End? && DistinctFields(f, seen) && Inherits(f, s)
    ensures Inherits(f.rest, s)
    ensures exists more :: DistinctFields(f.rest, more)
  {
    if f.ChildField? {
      assert DistinctFields(f.rest, seen + {f.tag});
      SeenIsNotDeclared(f.rest, seen + {f.tag}, f.tag);
    } else {
      assert DistinctFields(f.rest, seen);
    }
  }

  lemma {:induction false} CheckedFields(f: Schema, seen: set<Tag>, s: Schema, m: Model)
    requires DistinctFields(f, seen) && Inherits(f, s)
    ensures Check(f, Norm(s, m)).None? <==> Complete(f, m)
    decreases f, m, 0
  {
    if !f.End? {
      RestInherits(f, seen, s);
      var more :| DistinctFields(f.rest, more);
      CheckedFields(f.rest, more, s, m);
      match f
      case AttributeField(n, _, _) => NormAttributes(s, m, n);
      case TextField(_, _) => NormText(s, m);
      case ChildField(t, _, schema, _) =>
        NormTags(s, m, t);
        NormChildren(s, m, t);
        CheckedAll(schema, Children(m, t));
    }
  }

  lemma {:induction false} CheckedAll(s: Schema, ms: seq<Model>)
    requires DistinctAliases(s)
    ensures CheckAll(s, NormAll(s, ms)).None? <==> AllComplete(s, ms)
    decreases s, ms, 0
  {
    if ms != [] {
      CheckedFields(s, {}, s, ms[0]);
      CheckedAll(s, ms[1..]);
    }
  }

  /** A dumped tree can be parsed again exactly when the model is complete, and then yields what a dump
      preserves of it. */
  lemma LoadDumpIsExact(s: Schema, t: Tag, m: Model)
    requires DistinctAliases(s)
    ensures Load(s, Dump(s, t, m)).Ok? <==> Complete(s, m)
    ensures Complete(s, m) ==> Load(s, Dump(s, t, m)) == Ok(Norm(s, m))
  {
    CheckedFields(s, {}, s, m);
    LoadDump(s, t, m);
  }

  // ---------------------------------------------------------------- one field at a time

  lemma CompleteChild(f: Schema, m: Model, child: Model)
    requires f.ChildField? && Children(m, f.tag) == [child]
    ensures Complete(f, m) <==> Complete(f.schema, child) && Complete(f.rest, m)
  {
    assert AllComplete(f.schema, [child]) <==> Complete(f.schema, child);
  }

  lemma CompleteAbsent(f: Schema, m: Model)
    requires f.ChildField? && Children(m, f.tag) == [] && (f.multiplicity.AtMostOne? || f.multiplicity.AnyNumber?)
    ensures Complete(f, m) <==> Complete(f.rest, m)
  {
  }

  lemma CompleteList(f: Schema, m: Model)
    requires f.ChildField? && f.multiplicity.AnyNumber?
    ensures Complete(f, m) <==> AllComplete(f.schema, Children(m, f.tag)) && Complete(f.rest, m)
  {
  }

  lemma {:induction false} AllCompleteIsEach(s: Schema, ms: seq<Model>)
    ensures AllComplete(s, ms) <==> forall i :: 0 <= i < |ms| ==> Complete(s, ms[i])
  {
    if ms != [] {
      AllCompleteIsEach(s, ms[1..]);
      assert forall i :: 0 <= i < |ms| - 1 ==> ms[1..][i] == ms[i + 1];
    }
  }
}
