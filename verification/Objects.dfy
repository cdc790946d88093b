/** The synchronized objects, by their canonical content.

    A digest is represented by the content it is computed from: the model takes
    the digest to be injective.  Labels are sorted before hashing, so only their
    multiset matters.  Ids, numbers, timestamps and assets are not hashed. */
module Objects {
  import opened Pairing

  datatype Option<+T> = None | Some(value: T)

  datatype Side = GitHub | Forgejo

  datatype Content =
    | Issue(title: string, body: string, state: string, labels: multiset<string>, milestone: string)
    | Release(tag: string, name: string, text: string, draft: bool, prerelease: bool)
    | Comment(message: string)

  /** `address` is what an update call names: the issue number, or the object's own id. */
  datatype Object = Object(address: nat, content: Content)

  /** Identity that survives a migration which rewrites bodies. */
  datatype Slot = Number(number: nat) | Tag(tag: string)

  predicate HasSlot(o: Object)
  {
    !o.content.Comment?
  }

  function SlotSignature(o: Object): Signature<Slot>
    requires HasSlot(o)
  {
    match o.content
    case Issue(title, _, _, _, _) => Signature(Number(o.address), title)
    case Release(tag, _, _, _, _) => Signature(Tag(tag), "")
  }

  function ContentSignature(o: Object): Signature<Content>
  {
    Signature(o.content, "")
  }
}
