/** Storing the error of a parsed message with its exchange, and finding its class again
    (as4/core/serialisation.py). */
module StoredErrors {
  import opened Terms

  /** A class and its direct subclasses, in definition order. */
  datatype ErrorClass = ErrorClass(name: string, code: string, subclasses: seq<ErrorClass>)

  datatype StoredError = StoredError(typeName: string, detail: string)

  datatype ParseError = ParseError(errorClass: ErrorClass, detail: string)

  datatype UnknownError = UnknownReceiptable(name: string)

  /** Every proper descendant, depth first. */
  function Descendants(c: ErrorClass): seq<ErrorClass> {
    DescendantsOfAll(c.subclasses)
  }

  function DescendantsOfAll(cs: seq<ErrorClass>): seq<ErrorClass> {
    if cs == [] then [] else [cs[0]] + Descendants(cs[0]) + DescendantsOfAll(cs[1..])
  }

  /** The dictionary comprehension: a later class replaces an earlier one of the same name. */
  function ByName(cs: seq<ErrorClass>): map<string, ErrorClass> {
    if cs == [] then map[] else ByName(cs[..|cs| - 1])[cs[|cs| - 1].name := cs[|cs| - 1]]
  }

  function DumpError(e: ParseError): StoredError {
    StoredError(e.errorClass.name, e.detail)
  }

  function LoadError(base: ErrorClass, s: StoredError): Result<ParseError, UnknownError> {
    var errorsByName := ByName(Descendants(base));
    if s.typeName in errorsByName then Ok(ParseError(errorsByName[s.typeName], s.detail))
      else Err(UnknownReceiptable(s.typeName))
  }

  /** The generator is depth first: each subclass, in definition order, followed by its own descendants. */
  lemma {:induction false} DescendantsInOrder(a: seq<ErrorClass>, c: ErrorClass, b: seq<ErrorClass>)
    ensures DescendantsOfAll(a + [c] + b) == DescendantsOfAll(a) + [c] + Descendants(c) + DescendantsOfAll(b)
  {
    if a == [] {
      assert [] + [c] + b == [c] + b && ([c] + b)[1..] == b;
    } else {
      assert (a + [c] + b)[1..] == a[1..] + [c] + b;
      DescendantsInOrder(a[1..], c, b);
    }
  }

  /** A reflexive and transitive reading of the class tree. */
  predicate IsSubclass(c: ErrorClass, base: ErrorClass)
    decreases base
  {
    c == base || exists k | 0 <= k < |base.subclasses| :: IsSubclass(c, base.subclasses[k])
  }

  lemma {:induction false} DescendantsAreSubclasses(c: ErrorClass, base: ErrorClass)
    ensures c in Descendants(base) <==> exists k | 0 <= k < |base.subclasses| :: IsSubclass(c, base.subclasses[k])
    decreases base, 1
  {
    ListedAreSubclasses(c, base.subclasses);
  }

  lemma {:induction false} ListedAreSubclasses(c: ErrorClass, cs: seq<ErrorClass>)
    ensures c in DescendantsOfAll(cs) <==> exists k | 0 <= k < |cs| :: IsSubclass(c, cs[k])
    decreases cs, 0
  {
    if cs != [] {
      DescendantsAreSubclasses(c, cs[0]);
      ListedAreSubclasses(c, cs[1..]);
      assert IsSubclass(c, cs[0]) <==> c == cs[0] || c in Descendants(cs[0]);
      assert forall k :: 0 <= k < |cs| - 1 ==> cs[1..][k] == cs[k + 1];
    }
  }

  /** `c` is the last of the classes with its name. */
  predicate LastOfItsName(cs: seq<ErrorClass>, c: ErrorClass) {
    exists k | 0 <= k < |cs| :: cs[k] == c && forall j | k < j < |cs| :: cs[j].name != c.name
  }

  lemma {:induction false} ByNameIsLast(cs: seq<ErrorClass>, name: string)
    ensures name in ByName(cs) <==> exists c | c in cs :: c.name == name
    ensures name in ByName(cs) ==> ByName(cs)[name].name == name && LastOfItsName(cs, ByName(cs)[name])
  {
    if cs != [] {
      var init, last := cs[..|cs| - 1], cs[|cs| - 1];
      ByNameIsLast(init, name);
      assert cs == init + [last];
      if last.name == name {
        assert cs[|cs| - 1] == last && last in cs;
      } else if name in ByName(init) {
        var k :| 0 <= k < |init| && init[k] == ByName(init)[name]
                 && forall j | k < j < |init| :: init[j].name != ByName(init)[name].name;
        assert cs[k] == init[k];
      }
    }
  }

  /** A stored error is restored to its own class exactly when that class is the last descendant of its
      name, and to no class at all exactly when no subclass has the name. */
  lemma LoadUndoesDump(base: ErrorClass, e: ParseError)
    ensures LoadError(base, DumpError(e)) == Ok(e) <==> LastOfItsName(Descendants(base), e.errorClass)
    ensures LoadError(base, DumpError(e)).Err? <==>
              forall c | c in Descendants(base) :: c.name != e.errorClass.name
    ensures LoadError(base, DumpError(e)).Ok? ==> DumpError(LoadError(base, DumpError(e)).value) == DumpError(e)
  {
    ByNameIsLast(Descendants(base), e.errorClass.name);
    if LastOfItsName(Descendants(base), e.errorClass) {
      LastIsUnique(Descendants(base), e.errorClass, ByName(Descendants(base))[e.errorClass.name]);
    }
  }

  lemma LastIsUnique(cs: seq<ErrorClass>, c: ErrorClass, d: ErrorClass)
    requires LastOfItsName(cs, c) && LastOfItsName(cs, d) && c.name == d.name
    ensures c == d
  {
    var k :| 0 <= k < |cs| && cs[k] == c && forall j | k < j < |cs| :: cs[j].name != c.name;
    var l :| 0 <= l < |cs| && cs[l] == d && forall j | l < j < |cs| :: cs[j].name != d.name;
    assert k == l;
  }
}
