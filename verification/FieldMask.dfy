/**
 Field masks (internal/server/kube_validate.go): a message is the fields that
 are set, a path names a field by the messages on the way to it, and an update
 copies what its mask names, clearing what the source leaves unset.
 */
module FieldMask {
  import opened Bytes

  datatype Value = Scalar(text: string) | Message(fields: Fields)
  type Fields = map<string, Value>
  type Path = seq<string>

  /** Which fields a message type has; a list or map field has no fields of its own. */
  datatype Kind = Plain | Nested(kinds: map<string, Kind>)

  predicate ValidPath(kinds: map<string, Kind>, p: Path)
    decreases |p|
  {
    && p != [] && p[0] in kinds
    && (|p| == 1 || (kinds[p[0]].Nested? && ValidPath(kinds[p[0]].kinds, p[1..])))
  }

  /** What a path reads: nothing when the field, or a message on the way, is unset. */
  function At(m: Fields, q: Path): Option<Value>
    requires q != []
    decreases |q|
  {
    if q[0] !in m then None
    else if |q| == 1 then Some(m[q[0]])
    else At(Within(m, q[0]), q[1..])
  }

  /** The message in a field, empty when it is unset. */
  function Within(m: Fields, name: string): Fields {
    if name in m && m[name].Message? then m[name].fields else map[]
  }

  function CopyPath(target: Fields, source: Fields, p: Path): Fields
    requires p != []
    decreases |p|
  {
    if |p| > 1 then
      target[p[0] := Message(CopyPath(Within(target, p[0]), Within(source, p[0]), p[1..]))]
    else if p[0] in source then target[p[0] := source[p[0]]]
    else target - {p[0]}
  }

  predicate Named(mask: seq<Path>) {
    forall i :: 0 <= i < |mask| ==> mask[i] != []
  }

  /** The paths of the mask copied one after another. */
  function Copied(target: Fields, source: Fields, mask: seq<Path>): Fields
    requires Named(mask)
  {
    if mask == [] then target
    else CopyPath(Copied(target, source, mask[..|mask| - 1]), source, mask[|mask| - 1])
  }

  method CopyMask(target: Fields, source: Fields, mask: seq<Path>) returns (next: Fields)
    requires Named(mask)
    ensures next == Copied(target, source, mask)
  {
    next := target;
    for i := 0 to |mask|
      invariant next == Copied(target, source, mask[..i])
    {
      assert mask[..i + 1][..i] == mask[..i];
      next := CopyPath(next, source, mask[i]);
    }
    assert mask[..|mask|] == mask;
  }

  /** q is p, or a field of the message p names. */
  predicate Covers(p: Path, q: Path) {
    p <= q
  }

  predicate Covered(mask: seq<Path>, q: Path) {
    exists i :: 0 <= i < |mask| && Covers(mask[i], q)
  }

  /** No path of the mask reaches inside q: q is copied whole or not at all. */
  predicate Whole(mask: seq<Path>, q: Path) {
    forall i :: 0 <= i < |mask| ==> !(q < mask[i])
  }

  lemma Unset(q: Path)
    requires q != []
    ensures At(map[], q) == None
  {
  }

  lemma AtStep(m: Fields, q: Path)
    requires |q| > 1
    ensures At(m, q) == At(Within(m, q[0]), q[1..])
  {
    Unset(q[1..]);
  }

  lemma {:induction false} CopyPathMeaning(target: Fields, source: Fields, p: Path, q: Path)
    requires p != [] && q != [] && !(q < p)
    decreases |p|
    ensures At(CopyPath(target, source, p), q) == if Covers(p, q) then At(source, q) else At(target, q)
  {
    var next := CopyPath(target, source, p);
    if p[0] == q[0] && |p| > 1 {
      assert |q| > 1;
      assert q[1..] < p[1..] ==> q < p;
      assert Covers(p, q) <==> Covers(p[1..], q[1..]);
      CopyPathMeaning(Within(target, p[0]), Within(source, p[0]), p[1..], q[1..]);
      AtStep(next, q);
      AtStep(target, q);
      AtStep(source, q);
    }
  }

  /**
   What an update does to every field: one the mask covers reads what the
   source has for it, set or not, and every other one reads as before.
   */
  lemma {:induction false} MaskMeaning(target: Fields, source: Fields, mask: seq<Path>, q: Path)
    requires q != [] && Whole(mask, q) && Named(mask)
    ensures At(Copied(target, source, mask), q) == if Covered(mask, q) then At(source, q) else At(target, q)
  {
    if mask != [] {
      var init, p := mask[..|mask| - 1], mask[|mask| - 1];
      MaskMeaning(target, source, init, q);
      CopyPathMeaning(Copied(target, source, init), source, p, q);
      assert Covered(mask, q) <==> Covered(init, q) || Covers(p, q) by {
        if Covered(init, q) {
          var i :| 0 <= i < |init| && Covers(init[i], q);
          assert Covers(mask[i], q);
        }
      }
    }
  }

  /** Two masks that cover nothing in common can be applied in either order. */
  lemma DisjointMasksCommute(m: Fields, a: Fields, b: Fields, these: seq<Path>, those: seq<Path>, q: Path)
    requires q != [] && Whole(these, q) && Whole(those, q) && !(Covered(these, q) && Covered(those, q))
    requires Named(these) && Named(those)
    ensures At(Copied(Copied(m, a, these), b, those), q) == At(Copied(Copied(m, b, those), a, these), q)
  {
    MaskMeaning(m, a, these, q);
    MaskMeaning(Copied(m, a, these), b, those, q);
    MaskMeaning(m, b, those, q);
    MaskMeaning(Copied(m, b, those), a, these, q);
  }
}
