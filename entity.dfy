/** Identities (entity.go) and the read-model entities that repositories hold. */
module Entity {
  import opened Wrappers

  /** An entity's identity is a plain string. */
  type ID = string

  /** The pre-defined nil identity. */
  const NilID: ID := ""

  /** The textual form of the all-zero UUID, also accepted as a nil identity. */
  const NilUUID: ID := "00000000-0000-0000-0000-000000000000"

  /** An ID is nil when it is the empty string or the all-zero UUID. */
  predicate IsNilID(id: ID): (b: bool)
    ensures id == "" ==> b
    ensures b ==> |id| == 0 || |id| == 36
  {
    id == NilID || id == NilUUID
  }

  /** The nil ID is the empty string, and it counts as nil. */
  lemma NilIDIsEmpty()
    ensures NilID == [] && |NilID| == 0
    ensures IsNilID(NilID)
  {
  }

  /** The all-zero UUID counts as nil. */
  lemma ZeroUUIDIsNil()
    ensures IsNilID("00000000-0000-0000-0000-000000000000")
  {
  }

  /** Exactly two strings are nil IDs: any other string, however close, is not. */
  lemma OnlyTwoNilIDs(id: ID)
    ensures IsNilID(id) <==> id in {NilID, NilUUID}
    ensures id != "" && id != NilUUID ==> !IsNilID(id)
    ensures IsNilID(id) ==> |id| == 0 || |id| == 36
  {
  }

  /**
   * A read-model entity: its identity, its version when the model is versioned
   * (`Versionable`), and its projected content.
   */
  datatype Entity = Entity(id: ID, version: Option<int>, content: string)
}
