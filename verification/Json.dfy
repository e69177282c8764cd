/**
 Decoded JSON values and the steps that lead into them.

 Go decodes a body into any, map[string]any, []any, json.Number and strings; a
 json.Number keeps its text, so two numbers are the same value exactly when they
 are written the same way.
 */
module Json {
  import opened Wrappers

  datatype Json =
    | Null
    | Bool(b: bool)
    | Num(text: string)
    | Str(s: string)
    | Arr(items: seq<Json>)
    | Obj(fields: map<string, Json>)
  {
    predicate Scalar() { !Arr? && !Obj? }
  }

  datatype Step = Key(key: string) | Index(i: nat)

  type Path = seq<Step>

  /** One step down; None where the value has no such child. */
  function Child(j: Json, st: Step): (r: Option<Json>)
    ensures r.Some? ==> r.value < j
  {
    match st
    case Key(k) => if j.Obj? && k in j.fields then Some(j.fields[k]) else None
    case Index(i) => if j.Arr? && i < |j.items| then Some(j.items[i]) else None
  }

  function Lookup(j: Json, p: Path): Option<Json>
    decreases |p|
  {
    if p == [] then Some(j) else
      match Child(j, p[0])
      case None => None
      case Some(c) => Lookup(c, p[1..])
  }

  /** Looking up a path is looking up its head part, then the rest from there. */
  lemma {:induction false} LookupConcat(j: Json, p: Path, q: Path)
    ensures Lookup(j, p + q) == if Lookup(j, p).None? then None else Lookup(Lookup(j, p).value, q)
    decreases |p|
  {
    if p == [] {
      assert p + q == q;
    } else {
      assert (p + q)[0] == p[0] && (p + q)[1..] == p[1..] + q;
      if Child(j, p[0]).Some? {
        LookupConcat(Child(j, p[0]).value, p[1..], q);
      }
    }
  }

  lemma LookupSnoc(j: Json, p: Path, st: Step)
    ensures Lookup(j, p + [st]) == if Lookup(j, p).None? then None else Child(Lookup(j, p).value, st)
  {
    LookupConcat(j, p, [st]);
    if Lookup(j, p).Some? && Child(Lookup(j, p).value, st).Some? {
      assert [st][1..] == [];
    }
  }

  /** Whatever lies on the way to an existing value exists. */
  lemma LookupPrefix(j: Json, p: Path, n: nat)
    requires n <= |p| && Lookup(j, p).Some?
    ensures Lookup(j, p[..n]).Some?
  {
    assert p == p[..n] + p[n..];
    LookupConcat(j, p[..n], p[n..]);
  }

  /** Everything `part` holds, `whole` holds in the same place; its objects may have more keys. */
  predicate PartOf(part: Json, whole: Json)
    decreases part
  {
    match part
    case Obj(fields) =>
      whole.Obj? && forall k :: k in fields ==> k in whole.fields && PartOf(fields[k], whole.fields[k])
    case Arr(items) =>
      && whole.Arr? && |whole.items| == |items|
      && forall i :: 0 <= i < |items| ==> PartOf(items[i], whole.items[i])
    case _ => whole == part
  }

  lemma {:induction false} PartAt(part: Json, whole: Json, p: Path)
    requires PartOf(part, whole) && Lookup(part, p).Some?
    ensures Lookup(whole, p).Some? && PartOf(Lookup(part, p).value, Lookup(whole, p).value)
    decreases |p|
  {
    if p != [] {
      PartAt(Child(part, p[0]).value, Child(whole, p[0]).value, p[1..]);
    }
  }

  /** Scalars are the same in both. */
  lemma PartLeaf(part: Json, whole: Json, p: Path)
    requires PartOf(part, whole) && Lookup(part, p).Some? && Lookup(part, p).value.Scalar()
    ensures Lookup(whole, p) == Lookup(part, p)
  {
    PartAt(part, whole, p);
  }
}
