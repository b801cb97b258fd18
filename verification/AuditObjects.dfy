/**
 Redaction as it happens in memory. Audit data are objects and arrays that refer to each other; a redacted
 copy is made by copying one object, overwriting its keys and redacting what they refer to. The copy is
 entirely new, and the original is not written.
 */
module AuditObjects {
  import opened Wrappers
  import opened Redaction
  import opened Decimal

  /** What a key holds: a plain value, or a reference to an object or array. */
  datatype Slot = Leaf(json: Json) | Reference(node: Node)

  predicate IsContainer(j: Json) {
    j.Array? || j.Object?
  }

  /** The data a slot stands for. */
  ghost function Meaning(slot: Slot): Json
    reads if slot.Reference? then {slot.node} else {}
  {
    match slot
    case Leaf(json) => json
    case Reference(node) => node.Model
  }

  /** An object, or an array whose keys are its indices. `Model` is the data it holds, `Repr` all it is made of. */
  class Node {
    const isArray: bool
    var keys: seq<string>
    var values: seq<Slot>
    ghost var Model: Json
    ghost var Repr: set<Node>

    constructor (isArray: bool, keys: seq<string>, values: seq<Slot>)
      ensures this.isArray == isArray && this.keys == keys && this.values == values
    {
      this.isArray, this.keys, this.values := isArray, keys, values;
    }

    /** Data without cycles: what a node refers to is made of other nodes only. Nodes may be shared. */
    ghost predicate Valid()
      reads this, Repr
      decreases Model
    {
      && this in Repr
      && IsContainer(Model) && isArray == Model.Array?
      && |keys| == |values| == Size(Model)
      && forall i | 0 <= i < |values| :: keys[i] == KeyAt(Model, i) && StandsFor(values[i], ValueAt(Model, i))
    }

    ghost predicate StandsFor(slot: Slot, j: Json)
      requires this in Repr && j < Model
      reads this, Repr
      decreases Model, 0
    {
      match slot
      case Leaf(json) => json == j && !IsContainer(j)
      case Reference(node) =>
        && node in Repr && node.Repr <= Repr && this !in node.Repr
        && node.Model == j && node.Valid()
    }
  }

  ghost predicate ValidSlot(slot: Slot)
    reads if slot.Reference? then {slot.node} + slot.node.Repr else {}
  {
    if slot.Leaf? then !IsContainer(slot.json) else slot.node.Valid()
  }

  ghost function ReprOf(slot: Slot): set<Node>
    reads if slot.Reference? then {slot.node} else {}
  {
    if slot.Leaf? then {} else slot.node.Repr
  }

  /** The slot holds what it should, in nodes of the copy other than its root. */
  ghost predicate Done(root: Node, repr: set<Node>, slot: Slot, j: Json)
    reads repr
  {
    match slot
    case Leaf(json) => json == j && !IsContainer(j)
    case Reference(node) =>
      node in repr && node.Repr <= repr && root !in node.Repr && node.Model == j && node.Valid()
  }

  /** Every key of the copy up to `n` is done. */
  ghost predicate DoneUpTo(root: Node, repr: set<Node>, source: Json, n: nat)
    requires n <= |root.values| && n <= Size(source)
    reads root, repr
  {
    forall k | 0 <= k < n :: Done(root, repr, root.values[k], SanitizeEntry(KeyAt(source, k), ValueAt(source, k)))
  }

  /** A copy whose keys are all done stands for the redacted data. */
  ghost method Seal(root: Node, repr: set<Node>, source: Json)
    requires root in repr && IsContainer(source) && root.isArray == source.Array?
    requires |root.keys| == |root.values| == Size(source)
    requires forall k | 0 <= k < |root.keys| :: root.keys[k] == KeyAt(source, k)
    requires DoneUpTo(root, repr, source, Size(source))
    modifies root`Model, root`Repr
    ensures root.Valid() && root.Model == Sanitize(source) && root.Repr == repr
  {
    root.Model, root.Repr := Sanitize(source), repr;
    forall k | 0 <= k < |root.keys|
      ensures root.keys[k] == KeyAt(root.Model, k)
      ensures root.StandsFor(root.values[k], ValueAt(root.Model, k))
    {
      SanitizedEntry(source, k);
    }
  }

  /** What is stored under a key: the marker, the redacted copy of what was referred to, or the plain value. */
  method SanitizeKey(key: string, value: Slot) returns (r: Slot)
    requires ValidSlot(value)
    ensures ValidSlot(r) && Meaning(r) == SanitizeEntry(key, Meaning(value))
    ensures fresh(ReprOf(r)) && unchanged(ReprOf(value))
    decreases Meaning(value), 2
  {
    if Sensitive(key) {
      return Leaf(REDACTED);
    }
    if value.Reference? || value.json.Null? {
      r := SanitizeSlot(value);
      return;
    }
    return value;
  }

  /** `sanitized[key] = ...` for the next key. */
  method Overwrite(root: Node, ghost repr: set<Node>, ghost source: Json, i: nat, slot: Slot)
    requires root in repr && i < |root.values| <= Size(source) && DoneUpTo(root, repr, source, i)
    requires ValidSlot(slot) && root !in ReprOf(slot)
    requires Meaning(slot) == SanitizeEntry(KeyAt(source, i), ValueAt(source, i))
    modifies root`values
    ensures root.values == old(root.values)[i := slot]
    ensures DoneUpTo(root, repr + ReprOf(slot), source, i + 1)
  {
    root.values := root.values[i := slot];
    forall k | 0 <= k < i
      ensures Done(root, repr + ReprOf(slot), root.values[k], SanitizeEntry(KeyAt(source, k), ValueAt(source, k)))
    {
      assert Done(root, repr, root.values[k], SanitizeEntry(KeyAt(source, k), ValueAt(source, k)));
    }
  }

  /** Makes the redacted copy of an object: a copy of it, whose keys are then overwritten one by one. */
  method SanitizeNode(obj: Node) returns (sanitized: Node)
    requires obj.Valid()
    ensures sanitized.Valid() && sanitized.Model == Sanitize(obj.Model)
    ensures fresh(sanitized.Repr) && sanitized.Repr !! obj.Repr
    ensures unchanged(obj.Repr)
    decreases obj.Model, 0
  {
    sanitized := new Node(obj.isArray, obj.keys, obj.values);
    ghost var repr := {sanitized};
    for i := 0 to |obj.keys|
      invariant sanitized.keys == obj.keys && |sanitized.values| == |obj.values|
      invariant sanitized in repr && fresh(repr)
      invariant forall k | i <= k < |obj.values| :: sanitized.values[k] == obj.values[k]
      invariant DoneUpTo(sanitized, repr, obj.Model, i)
    {
      assert obj.StandsFor(obj.values[i], ValueAt(obj.Model, i));
      var inner := SanitizeKey(obj.keys[i], sanitized.values[i]);
      Overwrite(sanitized, repr, obj.Model, i, inner);
      repr := repr + ReprOf(inner);
    }
    Seal(sanitized, repr, obj.Model);
  }

  /** `sanitize`: plain values are returned as they are. */
  method SanitizeSlot(slot: Slot) returns (r: Slot)
    requires ValidSlot(slot)
    ensures ValidSlot(r) && Meaning(r) == Sanitize(Meaning(slot))
    ensures fresh(ReprOf(r)) && unchanged(ReprOf(slot))
    decreases Meaning(slot), 1
  {
    if slot.Leaf? {
      return slot;
    }
    var copy := SanitizeNode(slot.node);
    r := Reference(copy);
  }

  datatype Changes = Changes(before: Option<Slot>, after: Option<Slot>)

  ghost predicate ValidSide(side: Option<Slot>)
    reads if side.Some? && side.value.Reference? then {side.value.node} + side.value.node.Repr else {}
  {
    side.Some? ==> ValidSlot(side.value)
  }

  ghost function MeaningOfSide(side: Option<Slot>): Option<Json>
    reads if side.Some? && side.value.Reference? then {side.value.node} else {}
  {
    if side.None? then None else Some(Meaning(side.value))
  }

  ghost function ReprOfSide(side: Option<Slot>): set<Node>
    reads if side.Some? && side.value.Reference? then {side.value.node} else {}
  {
    if side.None? then {} else ReprOf(side.value)
  }

  /** A reference is never falsy. */
  method SanitizeOneSide(side: Option<Slot>) returns (r: Option<Slot>)
    requires ValidSide(side)
    ensures ValidSide(r) && MeaningOfSide(r) == SanitizeSide(MeaningOfSide(side))
    ensures fresh(ReprOfSide(r)) && unchanged(ReprOfSide(side))
  {
    if side.None? || (side.value.Leaf? && Falsy(side.value.json)) {
      return None;
    }
    var sanitized := SanitizeSlot(side.value);
    r := Some(sanitized);
  }

  method SanitizeChanges(changes: Option<Changes>) returns (r: Option<Changes>)
    requires changes.Some? ==> ValidSide(changes.value.before) && ValidSide(changes.value.after)
    ensures changes.None? <==> r.None?
    ensures changes.Some? ==>
              && ValidSide(r.value.before) && ValidSide(r.value.after)
              && MeaningOfSide(r.value.before) == SanitizeSide(MeaningOfSide(changes.value.before))
              && MeaningOfSide(r.value.after) == SanitizeSide(MeaningOfSide(changes.value.after))
              && fresh(ReprOfSide(r.value.before)) && fresh(ReprOfSide(r.value.after))
              && unchanged(ReprOfSide(changes.value.before)) && unchanged(ReprOfSide(changes.value.after))
  {
    if changes.None? {
      return None;
    }
    var before := SanitizeOneSide(changes.value.before);
    var after := SanitizeOneSide(changes.value.after);
    r := Some(Changes(before, after));
  }
}
