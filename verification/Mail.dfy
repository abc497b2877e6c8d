/** Gmail message trees and the attachments lifted out of them. */
module Mail {
  import opened Domain

  // What receipt creation looks at in an attachment: its declared type, whether its base64
  // decodes, its size, and whether its first bytes sniff to a supported type.
  datatype Attachment = Attachment(contentType: string, decodes: bool, size: nat, sniffs: bool)

  // A message payload. `Malformed` is anything that is not a JSON object. A leaf carries its
  // body only when the provider gave it an attachment id.
  datatype Part =
    | Malformed
    | Multipart(children: seq<Part>)
    | Leaf(mime: string, filename: string, body: Option<Body>)

  datatype Body = Body(size: nat, sniffs: bool)

  const MAX_UPLOAD_BYTES: nat := 10 * 1024 * 1024

  predicate AllowedMime(mime: string) {
    mime in {"image/jpeg", "image/png", "image/webp", "image/heic", "image/heif", "application/pdf"}
  }

  /** What is taken: five kinds of image, and PDF. */
  lemma {:induction false} TypesTaken(mime: string)
    ensures AllowedMime("application/pdf")
    ensures AllowedMime(mime) && mime != "application/pdf" <==>
      mime in {"image/jpeg", "image/png", "image/webp", "image/heic", "image/heif"}
  {
  }

  /** Every leaf of the tree, left to right. */
  function Leaves(part: Part): (leaves: seq<Part>)
    ensures forall leaf <- leaves :: leaf.Leaf?
    decreases part, 0
  {
    match part
    case Malformed => []
    case Multipart(children) => LeavesOfAll(children)
    case Leaf(_, _, _) => [part]
  }

  function LeavesOfAll(parts: seq<Part>): (leaves: seq<Part>)
    ensures forall leaf <- leaves :: leaf.Leaf?
    decreases parts, 1
  {
    if parts == [] then [] else Leaves(parts[0]) + LeavesOfAll(parts[1..])
  }

  predicate WorthFetching(leaf: Part)
    requires leaf.Leaf?
  {
    AllowedMime(leaf.mime) && leaf.filename != "" && leaf.body.Some?
  }

  /** The attachments the sync hands to the inbound-email service, in tree order. */
  function Fetch(leaves: seq<Part>): seq<Attachment>
    requires forall leaf <- leaves :: leaf.Leaf?
  {
    if leaves == [] then [] else FetchOne(leaves[0]) + Fetch(leaves[1..])
  }

  function FetchOne(leaf: Part): seq<Attachment>
    requires leaf.Leaf?
  {
    if WorthFetching(leaf) then [Attachment(leaf.mime, true, leaf.body.value.size, leaf.body.value.sniffs)] else []
  }

  function Attachments(payload: Part): seq<Attachment> {
    Fetch(Leaves(payload))
  }

  // What the receipt service makes of one attachment.
  datatype Verdict = Skip | Refuse | Accept

  /** The checks before the object store is touched. `viaEmail` is true for inbound messages, where
      an unsupported attachment is skipped; a direct upload is refused instead. */
  function Screen(viaEmail: bool, a: Attachment): Verdict {
    if viaEmail && !AllowedMime(a.contentType) then Skip
    else if viaEmail && !a.decodes then Skip
    else if a.size > MAX_UPLOAD_BYTES then Refuse
    else if a.size == 0 || !a.sniffs then (if viaEmail then Skip else Refuse)
    else Accept
  }

  predicate Acceptable(a: Attachment) {
    Screen(true, a).Accept?
  }

  /** A receipt sits somewhere in the tree, at any depth. */
  predicate CarriesReceipt(part: Part) {
    match part
    case Malformed => false
    case Multipart(children) => exists child <- children :: CarriesReceipt(child)
    case Leaf(mime, filename, body) =>
      && AllowedMime(mime) && filename != "" && body.Some?
      && 0 < body.value.size <= 10_485_760 && body.value.sniffs
  }

  predicate SomeAcceptable(attachments: seq<Attachment>) {
    exists a <- attachments :: Acceptable(a)
  }

  /** Flattening loses no receipt and invents none, however deeply parts are nested. */
  lemma {:induction false} CarriesReceiptIffFetched(part: Part)
    ensures CarriesReceipt(part) <==> SomeAcceptable(Attachments(part))
    decreases part, 0
  {
    match part
    case Malformed =>
    case Multipart(children) => CarriesReceiptIffFetchedAll(children);
    case Leaf(mime, filename, body) =>
      assert Fetch([]) == [];
      assert [part][1..] == [];
      if WorthFetching(part) {
        var a := Attachment(mime, true, body.value.size, body.value.sniffs);
        assert Attachments(part) == [a];
        assert a in Attachments(part);
      } else {
        assert Attachments(part) == [];
      }
  }

  lemma {:induction false} CarriesReceiptIffFetchedAll(parts: seq<Part>)
    ensures (exists part <- parts :: CarriesReceipt(part)) <==> SomeAcceptable(Fetch(LeavesOfAll(parts)))
    decreases parts, 1
  {
    if parts != [] {
      CarriesReceiptIffFetched(parts[0]);
      CarriesReceiptIffFetchedAll(parts[1..]);
      FetchConcat(Leaves(parts[0]), LeavesOfAll(parts[1..]));
      assert parts == [parts[0]] + parts[1..];
      var front, back := Attachments(parts[0]), Fetch(LeavesOfAll(parts[1..]));
      assert Fetch(LeavesOfAll(parts)) == front + back;
      assert forall a :: a in front + back <==> a in front || a in back;
    }
  }

  lemma {:induction false} FetchConcat(front: seq<Part>, back: seq<Part>)
    requires forall leaf <- front + back :: leaf.Leaf?
    requires forall leaf <- front :: leaf.Leaf?
    requires forall leaf <- back :: leaf.Leaf?
    ensures Fetch(front + back) == Fetch(front) + Fetch(back)
  {
    if front == [] {
      assert front + back == back;
    } else {
      assert (front + back)[1..] == front[1..] + back;
      FetchConcat(front[1..], back);
      hide FetchOne;
      assert (front + back)[0] == front[0];
    }
  }

  /** The part is somewhere in the tree. */
  predicate Holds(tree: Part, leaf: Part) {
    match tree
    case Malformed => false
    case Multipart(children) => exists child <- children :: Holds(child, leaf)
    case Leaf(_, _, _) => tree == leaf
  }

  /** What one leaf is fetched as: its type, its size and its first bytes. */
  predicate FetchedAs(leaf: Part, a: Attachment) {
    && leaf.Leaf? && AllowedMime(leaf.mime) && leaf.filename != "" && leaf.body.Some?
    && a == Attachment(leaf.mime, true, leaf.body.value.size, leaf.body.value.sniffs)
  }

  /** The attachments are exactly what the leaves of the tree are fetched as: those of an allowed type with a
      name and a body, whether or not they can be stored. */
  lemma {:induction false} AttachmentsAreTheLeaves(tree: Part, a: Attachment)
    ensures a in Attachments(tree) <==> exists leaf :: Holds(tree, leaf) && FetchedAs(leaf, a)
  {
    FetchMembers(Leaves(tree), a);
    forall leaf ensures Holds(tree, leaf) && leaf.Leaf? <==> leaf in Leaves(tree) {
      LeavesAreHeld(tree, leaf);
    }
  }

  lemma {:induction false} FetchMembers(leaves: seq<Part>, a: Attachment)
    requires forall leaf <- leaves :: leaf.Leaf?
    ensures a in Fetch(leaves) <==> exists leaf <- leaves :: FetchedAs(leaf, a)
  {
    if leaves != [] {
      FetchMembers(leaves[1..], a);
      FetchOneIs(leaves[0], a);
      hide FetchOne, FetchedAs;
      assert leaves == [leaves[0]] + leaves[1..];
    }
  }

  lemma FetchOneIs(leaf: Part, a: Attachment)
    requires leaf.Leaf?
    ensures a in FetchOne(leaf) <==> FetchedAs(leaf, a)
  {
  }

  lemma {:induction false} LeavesAreHeld(tree: Part, leaf: Part)
    ensures leaf in Leaves(tree) <==> Holds(tree, leaf) && leaf.Leaf?
    decreases tree, 0
  {
    if tree.Multipart? { LeavesOfAllAreHeld(tree.children, leaf); }
  }

  lemma {:induction false} LeavesOfAllAreHeld(parts: seq<Part>, leaf: Part)
    ensures leaf in LeavesOfAll(parts) <==> leaf.Leaf? && exists part <- parts :: Holds(part, leaf)
    decreases parts, 1
  {
    if parts != [] {
      LeavesAreHeld(parts[0], leaf);
      LeavesOfAllAreHeld(parts[1..], leaf);
      assert parts == [parts[0]] + parts[1..];
    }
  }

  /** In tree order: the attachments of some children come before those of the children after them. */
  lemma {:induction false} AttachmentsInOrder(first: seq<Part>, second: seq<Part>)
    ensures Attachments(Multipart(first + second)) == Attachments(Multipart(first)) + Attachments(Multipart(second))
  {
    LeavesConcat(first, second);
    FetchConcat(LeavesOfAll(first), LeavesOfAll(second));
  }

  lemma {:induction false} LeavesConcat(first: seq<Part>, second: seq<Part>)
    ensures LeavesOfAll(first + second) == LeavesOfAll(first) + LeavesOfAll(second)
  {
    if first == [] {
      assert first + second == second;
    } else {
      assert (first + second)[1..] == first[1..] + second;
      LeavesConcat(first[1..], second);
    }
  }
}
