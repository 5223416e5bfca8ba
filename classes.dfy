/**
 * The classes the caller's class loader can resolve, as far as `Class.forName`
 * and `Class.isAssignableFrom` need them: every class has a name and at most one
 * superclass. A class table lists them so that a superclass comes before its
 * subclasses (a class cannot be defined before its superclass), so a parent's
 * index is smaller than its child's. Names are unique in a table: one class
 * loader's view. A class is named by its index in the table (a `ClassRef`).
 */
module Classes {
  import opened Wrappers

  type ClassRef = nat

  datatype ClassDecl = ClassDecl(name: string, parent: Option<ClassRef>)

  type ClassTable = seq<ClassDecl>

  /** Superclasses come first and no two classes share a name. */
  predicate WellFormed(table: ClassTable) {
    && (forall c :: 0 <= c < |table| && table[c].parent.Some? ==> table[c].parent.value < c)
    && (forall c, d :: 0 <= c < d < |table| ==> table[c].name != table[d].name)
  }

  /** `Class.forName`: the class with the given name, or none when the class loader cannot find it. */
  function ForName(table: ClassTable, name: string): (r: Option<ClassRef>)
    ensures r.Some? ==> r.value < |table| && table[r.value].name == name
    ensures r.None? <==> forall c :: 0 <= c < |table| ==> table[c].name != name
  {
    if |table| == 0 then None
    else if table[|table| - 1].name == name then Some(|table| - 1)
    else ForName(table[..|table| - 1], name)
  }

  /**
   * Whether `sub` is `sup` or inherits from it: the relation Java's
   * `sup.isAssignableFrom(sub)` decides for classes.
   */
  predicate IsSubclassOf(table: ClassTable, sub: ClassRef, sup: ClassRef)
    requires WellFormed(table) && sub < |table|
    ensures IsSubclassOf(table, sub, sup) ==> sup <= sub
    decreases sub
  {
    sub == sup || (table[sub].parent.Some? && IsSubclassOf(table, table[sub].parent.value, sup))
  }

  /** The superclass chain of `c`: `c`, its parent, its grandparent, up to a class without one. */
  function Superclasses(table: ClassTable, c: ClassRef): (chain: seq<ClassRef>)
    requires WellFormed(table) && c < |table|
    ensures |chain| >= 1 && chain[0] == c
    ensures forall k :: 0 <= k < |chain| ==> chain[k] < |table|
    ensures forall k :: 0 <= k < |chain| - 1 ==> table[chain[k]].parent == Some(chain[k + 1])
    ensures table[chain[|chain| - 1]].parent.None?
    decreases c
  {
    match table[c].parent
    case None => [c]
    case Some(p) => [c] + Superclasses(table, p)
  }

  /** Every class is a subclass of itself. */
  lemma SubclassReflexive(table: ClassTable, c: ClassRef)
    requires WellFormed(table) && c < |table|
    ensures IsSubclassOf(table, c, c)
  {
  }

  /** A subclass of a subclass is a subclass. */
  lemma {:induction false} SubclassTransitive(table: ClassTable, a: ClassRef, b: ClassRef, c: ClassRef)
    requires WellFormed(table) && a < |table| && b < |table|
    requires IsSubclassOf(table, a, b) && IsSubclassOf(table, b, c)
    ensures IsSubclassOf(table, a, c)
    decreases a
  {
    if a != b {
      SubclassTransitive(table, table[a].parent.value, b, c);
    }
  }

  /** Two distinct classes are never each other's subclass. */
  lemma SubclassAntisymmetric(table: ClassTable, a: ClassRef, b: ClassRef)
    requires WellFormed(table) && a < |table| && b < |table|
    requires IsSubclassOf(table, a, b) && IsSubclassOf(table, b, a)
    ensures a == b
  {
  }

  /** `sub` inherits from `sup` exactly when `sup` lies on the superclass chain of `sub`. */
  lemma {:induction false} SubclassIffOnChain(table: ClassTable, sub: ClassRef, sup: ClassRef)
    requires WellFormed(table) && sub < |table|
    ensures IsSubclassOf(table, sub, sup) <==> sup in Superclasses(table, sub)
    decreases sub
  {
    match table[sub].parent
    case None =>
    case Some(p) => SubclassIffOnChain(table, p, sup);
  }
}
