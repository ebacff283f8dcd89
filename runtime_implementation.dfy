/**
  The runtime's description of one procedure implementation: a version, an
  access level, the parameters and the callable, all fixed at construction.
 */
module RuntimeImplementation {

  datatype AccessLevel = Public | Private

  /** An immutable value: no operation changes any of its fields. */
  datatype Implementation<Version, Parameter, Executable> = Implementation(
    version: Version,
    access: AccessLevel,
    parameters: seq<Parameter>,
    executable: Executable)
  {
    /** The `public` getter: true exactly for the public access level. */
    predicate IsPublic()
      ensures IsPublic() <==> access == Public
      ensures access == Private ==> !IsPublic()
    {
      access == Public
    }
  }

  /**
    The access level is observable only through `public`, and nothing of it is
    lost there: two implementations that agree on `public` have the same level.
   */
  lemma PublicDeterminesAccess<V, P, X>(a: Implementation<V, P, X>, b: Implementation<V, P, X>)
    requires a.IsPublic() == b.IsPublic()
    ensures a.access == b.access
  {
    match a.access
    case Public =>
      assert b.IsPublic();
    case Private =>
      assert !b.IsPublic();
  }
}
