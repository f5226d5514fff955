/** content_service.py: the explicit-stack walk over a MIME tree, and the attachment keys that
    depend on its order. */
module MimeWalk {
  import opened Wrappers

  const MAX_DEPTH := 30
  const MAX_PARTS := 2000
  const MAX_ATTACHMENTS := 200
  const MAX_BODY_BYTES := 2 * 1024 * 1024
  const MAX_ATTACHMENT_BYTES := 20 * 1024 * 1024
  const INLINE_IMAGE_TYPES: set<string> := {"image/png", "image/jpeg", "image/gif", "image/webp"}

  /** A part with the headers already looked up; `attached` says that its disposition mentions
      "attachment". An entry of `parts` that is no object is skipped by the walk. */
  datatype Part =
    | Part(mimeType: string, filename: string, attached: bool, contentId: Option<string>, size: int,
           attachmentId: Option<string>, data: Option<string>, parts: seq<Part>)
    | NoObject

  /** Reference: the parts in preorder, by recursion. */
  function Preorder(part: Part): seq<Part> {
    if part.NoObject? then [] else [part] + PreorderAll(part.parts)
  }

  function PreorderAll(parts: seq<Part>): seq<Part> {
    if parts == [] then [] else Preorder(parts[0]) + PreorderAll(parts[1..])
  }

  function Height(part: Part): nat {
    if part.NoObject? then 0 else HeightAll(part.parts)
  }

  /** One more than the greatest height among the objects; 0 when there is none. */
  function HeightAll(parts: seq<Part>): nat {
    if parts == [] then 0
    else
      var first, rest := if parts[0].NoObject? then 0 else 1 + Height(parts[0]), HeightAll(parts[1..]);
      if first >= rest then first else rest
  }

  /** The stack: the top is the last entry. */
  type Stack = seq<(Part, nat)>

  predicate AllObjects(pending: Stack) {
    forall k :: 0 <= k < |pending| ==> pending[k].0.Part?
  }

  /** What is still to be visited, in the order it will be. */
  function Unvisited(pending: Stack): seq<Part> {
    if pending == [] then []
    else Preorder(pending[|pending| - 1].0) + Unvisited(pending[..|pending| - 1])
  }

  ghost predicate FitsBelow(pending: Stack) {
    forall k :: 0 <= k < |pending| ==> pending[k].1 + Height(pending[k].0) <= MAX_DEPTH
  }

  /** reversed(parts), objects only, each with its depth. */
  function Pushed(parts: seq<Part>, depth: nat): Stack {
    if parts == [] then []
    else Pushed(parts[1..], depth) + (if parts[0].NoObject? then [] else [(parts[0], depth)])
  }

  lemma Concat<T>(a: seq<T>, b: seq<T>, c: seq<T>)
    ensures (a + b) + c == a + (b + c)
  {
  }

  /** The top of the stack comes first. */
  lemma TopFirst(rest: Stack, top: (Part, nat))
    ensures Unvisited(rest + [top]) == Preorder(top.0) + Unvisited(rest)
  {
    var pending := rest + [top];
    assert pending[|pending| - 1] == top && pending[..|pending| - 1] == rest;
  }

  lemma {:induction false} UnvisitedOfBoth(lower: Stack, upper: Stack)
    ensures Unvisited(lower + upper) == Unvisited(upper) + Unvisited(lower)
  {
    if upper == [] {
      assert lower + upper == lower;
      assert Unvisited(upper) == [];
    } else {
      var rest, top := upper[..|upper| - 1], upper[|upper| - 1];
      assert upper == rest + [top] && lower + upper == (lower + rest) + [top];
      UnvisitedOfBoth(lower, rest);
      TopFirst(rest, top);
      TopFirst(lower + rest, top);
      Concat(Preorder(top.0), Unvisited(rest), Unvisited(lower));
    }
  }

  /** Pushing the children in reverse visits them in order. */
  lemma {:induction false} PushedIsPreorder(parts: seq<Part>, depth: nat)
    ensures Unvisited(Pushed(parts, depth)) == PreorderAll(parts) && AllObjects(Pushed(parts, depth))
  {
    if parts != [] {
      PushedIsPreorder(parts[1..], depth);
      var lower := Pushed(parts[1..], depth);
      if parts[0].Part? {
        TopFirst(lower, (parts[0], depth));
        ObjectsOfBoth(lower, [(parts[0], depth)]);
      } else {
        assert Pushed(parts, depth) == lower;
        assert Preorder(parts[0]) + PreorderAll(parts[1..]) == PreorderAll(parts[1..]);
      }
    }
  }

  lemma {:induction false} PushedFits(parts: seq<Part>, depth: nat)
    ensures FitsBelow(Pushed(parts, depth + 1)) <==> depth + HeightAll(parts) <= MAX_DEPTH || HeightAll(parts) == 0
  {
    if parts != [] {
      PushedFits(parts[1..], depth);
      var lower := Pushed(parts[1..], depth + 1);
      if parts[0].Part? {
        assert Pushed(parts, depth + 1) == lower + [(parts[0], depth + 1)];
        assert forall k :: 0 <= k < |lower| ==> Pushed(parts, depth + 1)[k] == lower[k];
        assert Pushed(parts, depth + 1)[|lower|] == (parts[0], depth + 1);
      } else {
        assert Pushed(parts, depth + 1) == lower;
      }
    }
  }

  /** The limits the walk enforces, stated on the tree. */
  ghost predicate Within(root: Part) {
    Height(root) <= MAX_DEPTH && |Preorder(root)| <= MAX_PARTS
  }

  lemma FitsOfBoth(lower: Stack, upper: Stack)
    ensures FitsBelow(lower + upper) <==> FitsBelow(lower) && FitsBelow(upper)
  {
    var both := lower + upper;
    assert forall k :: 0 <= k < |lower| ==> both[k] == lower[k];
    assert forall k :: 0 <= k < |upper| ==> both[|lower| + k] == upper[k];
  }

  lemma ObjectsOfBoth(lower: Stack, upper: Stack)
    requires AllObjects(lower) && AllObjects(upper)
    ensures AllObjects(lower + upper)
  {
  }

  /** One turn visits exactly the next part of the preorder. */
  lemma PopKeepsOrder(rest: Stack, part: Part, depth: nat)
    requires part.Part? && AllObjects(rest)
    ensures Unvisited(rest + [(part, depth)]) == [part] + Unvisited(rest + Pushed(part.parts, depth + 1))
    ensures AllObjects(rest + Pushed(part.parts, depth + 1))
  {
    var children, below := Pushed(part.parts, depth + 1), PreorderAll(part.parts);
    TopFirst(rest, (part, depth));
    UnvisitedOfBoth(rest, children);
    PushedIsPreorder(part.parts, depth + 1);
    ObjectsOfBoth(rest, children);
    Concat([part], below, Unvisited(rest));
  }

  /** A part too deep to be visited is on the stack, or below an entry of it, until it is met. */
  lemma PopKeepsFit(rest: Stack, part: Part, depth: nat)
    requires part.Part?
    ensures FitsBelow(rest + [(part, depth)]) <==> depth <= MAX_DEPTH && FitsBelow(rest + Pushed(part.parts, depth + 1))
  {
    FitsOfBoth(rest, [(part, depth)]);
    FitsOfBoth(rest, Pushed(part.parts, depth + 1));
    PushedFits(part.parts, depth);
    assert Height(part) == HeightAll(part.parts);
    assert [(part, depth)][0] == (part, depth);
  }

  /** _parts: the preorder of the tree, or a refusal exactly when it is too deep or too large. */
  method Parts(root: Part) returns (result: Option<seq<Part>>)
    requires root.Part?
    ensures result.Some? <==> Within(root)
    ensures result.Some? ==> result.value == Preorder(root)
  {
    var visited: seq<Part> := [];
    var pending: Stack := [(root, 0)];
    assert pending == [] + [(root, 0)];
    TopFirst([], (root, 0));
    assert Unvisited([]) == [];
    while pending != []
      invariant visited + Unvisited(pending) == Preorder(root) && AllObjects(pending)
      invariant FitsBelow(pending) <==> Height(root) <= MAX_DEPTH
      invariant |visited| <= MAX_PARTS
      decreases |Unvisited(pending)|
    {
      var (part, depth) := pending[|pending| - 1];
      var rest := pending[..|pending| - 1];
      assert pending == rest + [(part, depth)];
      PopKeepsOrder(rest, part, depth);
      PopKeepsFit(rest, part, depth);
      if depth > MAX_DEPTH || |visited| >= MAX_PARTS {
        return None;
      }
      pending := rest + Pushed(part.parts, depth + 1);
      Concat(visited, [part], Unvisited(pending));
      visited := visited + [part];
    }
    return Some(visited);
  }

  // ---------------------------------------------------------------- keys and listings

  function Decimal(n: nat): string {
    (if n < 10 then "" else Decimal(n / 10)) + [('0' as int + n % 10) as char]
  }

  lemma {:induction false} DecimalIsInjective(a: nat, b: nat)
    requires Decimal(a) == Decimal(b)
    ensures a == b
  {
    var s, t := Decimal(a), Decimal(b);
    assert s[|s| - 1] == t[|t| - 1];
    assert s[..|s| - 1] == if a < 10 then "" else Decimal(a / 10);
    assert t[..|t| - 1] == if b < 10 then "" else Decimal(b / 10);
    if a >= 10 && b >= 10 {
      DecimalIsInjective(a / 10, b / 10);
    }
  }

  function Key(index: nat): string {
    "gmail-" + Decimal(index)
  }

  lemma KeysDiffer(i: nat, j: nat)
    requires Key(i) == Key(j)
    ensures i == j
  {
    assert Key(i)[|"gmail-"|..] == Decimal(i) && Key(j)[|"gmail-"|..] == Decimal(j);
    DecimalIsInjective(i, j);
  }

  /** AttachmentItem: what a listing shows of an attachment. */
  datatype Item = Item(id: string, filename: string, contentType: string, size: nat, contentId: Option<string>,
                       isInline: bool, hasInlineUrl: bool)

  datatype Ref = Ref(item: Item, providerId: Option<string>, data: Option<string>)

  predicate IsAttachment(part: Part)
    requires part.Part?
  {
    part.filename != "" || part.attached || part.contentId.Some?
  }

  function RefOf(part: Part, index: nat): Ref
    requires part.Part?
  {
    var isInline := part.contentId.Some? && !part.attached;
    Ref(Item(Key(index), if part.filename != "" then part.filename else "attachment",
             if part.mimeType != "" then part.mimeType else "application/octet-stream",
             if part.size > 0 then part.size else 0, part.contentId, isInline,
             isInline && part.mimeType in INLINE_IMAGE_TYPES),
        part.attachmentId, part.data)
  }

  predicate Objects(parts: seq<Part>) {
    forall k :: 0 <= k < |parts| ==> parts[k].Part?
  }

  lemma {:induction false} PreorderIsObjects(part: Part)
    ensures Objects(Preorder(part))
    decreases part, 0
  {
    if part.Part? {
      PreorderAllIsObjects(part.parts);
    }
  }

  lemma {:induction false} PreorderAllIsObjects(parts: seq<Part>)
    ensures Objects(PreorderAll(parts))
    decreases parts, 1
  {
    if parts != [] {
      PreorderIsObjects(parts[0]);
      PreorderAllIsObjects(parts[1..]);
    }
  }

  /** The attachments among the parts from position `from` on. */
  function Refs(parts: seq<Part>, from: nat): seq<Ref>
    requires Objects(parts) && from <= |parts|
    decreases |parts| - from
  {
    if from == |parts| then []
    else (if IsAttachment(parts[from]) then [RefOf(parts[from], from)] else []) + Refs(parts, from + 1)
  }

  /** gmail_attachments: None for ContentLimitError. */
  method GmailAttachments(root: Part) returns (result: Option<seq<Ref>>)
    requires root.Part?
    ensures Objects(Preorder(root))
    ensures result.Some? <==> Within(root) && |Refs(Preorder(root), 0)| <= MAX_ATTACHMENTS
    ensures result.Some? ==> result.value == Refs(Preorder(root), 0)
  {
    PreorderIsObjects(root);
    var parts := Parts(root);
    if parts.None? {
      return None;
    }
    var refs: seq<Ref> := [];
    for i := 0 to |parts.value|
      invariant refs + Refs(parts.value, i) == Refs(parts.value, 0) && |refs| <= MAX_ATTACHMENTS
    {
      if !IsAttachment(parts.value[i]) {
        continue;
      }
      refs := refs + [RefOf(parts.value[i], i)];
      if |refs| > MAX_ATTACHMENTS {
        return None;
      }
    }
    return Some(refs);
  }

  /** The k-th listed attachment is the part at some position, which its key names; positions grow. */
  lemma {:induction false} ListedPart(parts: seq<Part>, from: nat, k: nat) returns (index: nat)
    requires Objects(parts) && from <= |parts| && k < |Refs(parts, from)|
    ensures from <= index < |parts| && IsAttachment(parts[index]) && Refs(parts, from)[k] == RefOf(parts[index], index)
    decreases |parts| - from
  {
    if !IsAttachment(parts[from]) {
      index := ListedPart(parts, from + 1, k);
    } else if k == 0 {
      index := from;
    } else {
      index := ListedPart(parts, from + 1, k - 1);
    }
  }

  lemma {:induction false} KeysAreDistinct(parts: seq<Part>, from: nat, k: nat, l: nat)
    requires Objects(parts) && from <= |parts| && k < l < |Refs(parts, from)|
    ensures Refs(parts, from)[k].item.id != Refs(parts, from)[l].item.id
    decreases |parts| - from
  {
    if !IsAttachment(parts[from]) {
      KeysAreDistinct(parts, from + 1, k, l);
    } else if k > 0 {
      KeysAreDistinct(parts, from + 1, k - 1, l - 1);
    } else {
      var index := ListedPart(parts, from + 1, l - 1);
      if Key(from) == Key(index) {
        KeysDiffer(from, index);
      }
    }
  }

  // ---------------------------------------------------------------- bodies filled in place

  /** The tree with the data of some parts, given by their preorder positions, replaced. */
  function Refill(part: Part, at: nat, fetched: map<nat, string>): Part
    decreases part, 0
  {
    if part.NoObject? then part
    else part.(data := if at in fetched then Some(fetched[at]) else part.data,
               parts := RefillAll(part.parts, at + 1, fetched))
  }

  function RefillAll(parts: seq<Part>, at: nat, fetched: map<nat, string>): seq<Part>
    decreases parts, 1
  {
    if parts == [] then []
    else [Refill(parts[0], at, fetched)] + RefillAll(parts[1..], at + |Preorder(parts[0])|, fetched)
  }

  /** Same part, apart from its data and what is below it. */
  predicate Alike(a: Part, b: Part) {
    a.Part? && b.Part? && a.(data := None, parts := []) == b.(data := None, parts := [])
  }

  ghost predicate Refilled(before: seq<Part>, after: seq<Part>, at: nat, fetched: map<nat, string>) {
    && |after| == |before|
    && forall k :: 0 <= k < |before| ==>
         && Alike(before[k], after[k])
         && after[k].data == if at + k in fetched then Some(fetched[at + k]) else before[k].data
  }

  lemma RefilledInSequence(a: seq<Part>, a': seq<Part>, b: seq<Part>, b': seq<Part>, at: nat, fetched: map<nat, string>)
    requires Refilled(a, a', at, fetched) && Refilled(b, b', at + |a|, fetched)
    ensures Refilled(a + b, a' + b', at, fetched)
  {
    forall k | 0 <= k < |a + b|
      ensures Alike((a + b)[k], (a' + b')[k])
      ensures (a' + b')[k].data == if at + k in fetched then Some(fetched[at + k]) else (a + b)[k].data
    {
      if k >= |a| {
        assert (a + b)[k] == b[k - |a|] && (a' + b')[k] == b'[k - |a|];
        assert at + |a| + (k - |a|) == at + k;
      }
    }
  }

  /** Filling bodies moves no part. */
  lemma {:induction false} RefillKeepsPositions(part: Part, at: nat, fetched: map<nat, string>)
    ensures Refilled(Preorder(part), Preorder(Refill(part, at, fetched)), at, fetched)
    decreases part, 0
  {
    if part.Part? {
      RefillAllKeepsPositions(part.parts, at + 1, fetched);
      var after := Refill(part, at, fetched);
      RefilledInSequence([part], [after], PreorderAll(part.parts), PreorderAll(after.parts), at, fetched);
    }
  }

  lemma {:induction false} RefillAllKeepsPositions(parts: seq<Part>, at: nat, fetched: map<nat, string>)
    ensures Refilled(PreorderAll(parts), PreorderAll(RefillAll(parts, at, fetched)), at, fetched)
    decreases parts, 1
  {
    if parts != [] {
      RefillKeepsPositions(parts[0], at, fetched);
      RefillAllKeepsPositions(parts[1..], at + |Preorder(parts[0])|, fetched);
      var after := RefillAll(parts, at, fetched);
      assert after[1..] == RefillAll(parts[1..], at + |Preorder(parts[0])|, fetched);
      RefilledInSequence(Preorder(parts[0]), Preorder(after[0]), PreorderAll(parts[1..]), PreorderAll(after[1..]), at, fetched);
    }
  }

  lemma {:induction false} RefillKeepsListing(before: seq<Part>, after: seq<Part>, fetched: map<nat, string>, from: nat)
    requires Objects(before) && Objects(after) && Refilled(before, after, 0, fetched) && from <= |before|
    ensures |Refs(after, from)| == |Refs(before, from)|
    ensures forall k :: 0 <= k < |Refs(before, from)| ==>
      && Refs(after, from)[k].item == Refs(before, from)[k].item
      && Refs(after, from)[k].providerId == Refs(before, from)[k].providerId
    decreases |before| - from
  {
    if from < |before| {
      RefillKeepsListing(before, after, fetched, from + 1);
      assert Alike(before[from], after[from]);
    }
  }

  /** The first listed attachment with the requested key. */
  function Select(refs: seq<Ref>, key: string): Option<Ref> {
    if refs == [] then None
    else if refs[0].item.id == key then Some(refs[0])
    else Select(refs[1..], key)
  }

  lemma {:induction false} SelectsTheOnlyOne(refs: seq<Ref>, k: nat)
    requires k < |refs| && forall i, j :: 0 <= i < j < |refs| ==> refs[i].item.id != refs[j].item.id
    ensures Select(refs, refs[k].item.id) == Some(refs[k])
  {
    if k > 0 {
      assert refs[0].item.id != refs[k].item.id;
      SelectsTheOnlyOne(refs[1..], k - 1);
    }
  }

  /** A key listed with bodies filled in selects, from the stored message, the attachment that the
      listing described. */
  lemma DownloadSelectsTheListedPart(root: Part, fetched: map<nat, string>, k: nat)
    requires root.Part?
    ensures Objects(Preorder(root)) && Objects(Preorder(Refill(root, 0, fetched)))
    ensures var listed, stored := Refs(Preorder(Refill(root, 0, fetched)), 0), Refs(Preorder(root), 0);
            k < |listed| ==>
              && k < |stored| && Select(stored, listed[k].item.id) == Some(stored[k])
              && stored[k].item == listed[k].item && stored[k].providerId == listed[k].providerId
  {
    var before, after := Preorder(root), Preorder(Refill(root, 0, fetched));
    PreorderIsObjects(root);
    PreorderIsObjects(Refill(root, 0, fetched));
    RefillKeepsPositions(root, 0, fetched);
    RefillKeepsListing(before, after, fetched, 0);
    var stored := Refs(before, 0);
    forall i, j | 0 <= i < j < |stored|
      ensures stored[i].item.id != stored[j].item.id
    {
      KeysAreDistinct(before, 0, i, j);
    }
    if k < |stored| {
      SelectsTheOnlyOne(stored, k);
    }
  }

  // ---------------------------------------------------------------- _payload

  /** base64 decoding as far as its length matters; None for malformed text. */
  type Decoder = string -> Option<nat>

  function DecodeAttachment(value: string, limit: nat, decode: Decoder): Option<nat> {
    if |value| > (limit + 2) / 3 * 4 + 8 then None
    else if decode(value).Some? && decode(value).value <= limit then decode(value)
    else None
  }

  predicate IsBody(part: Part)
    requires part.Part?
  {
    part.mimeType in {"text/plain", "text/html"} && part.filename == "" && !part.attached
  }

  predicate NeedsFetch(part: Part)
    requires part.Part?
  {
    part.attachmentId.GetOr("") != "" && part.data.GetOr("") == ""
  }

  /** What the provider answers for an attachment id; None when the call fails. */
  type Fetcher = string -> Option<string>

  function Answer(part: Part, fetch: Fetcher): Option<string>
    requires part.Part?
  {
    fetch(part.attachmentId.GetOr(""))
  }

  /** The data of a part once everything that can be fetched has been. */
  function DataOf(part: Part, fetch: Fetcher): Option<string>
    requires part.Part?
  {
    if IsBody(part) && NeedsFetch(part) then Answer(part, fetch) else part.data
  }

  /** Decoded bytes of the bodies among the first n parts. */
  function BodyBytes(parts: seq<Part>, n: nat, fetch: Fetcher, decode: Decoder): nat
    requires Objects(parts) && n <= |parts|
  {
    if n == 0 then 0
    else
      var data := DataOf(parts[n - 1], fetch);
      BodyBytes(parts, n - 1, fetch, decode)
      + if IsBody(parts[n - 1]) && data.Some? then decode(data.value).GetOr(0) else 0
  }

  /** The i-th part can be filled in within what the parts before it leave of the limit. */
  predicate Payable(parts: seq<Part>, i: nat, fetch: Fetcher, decode: Decoder)
    requires Objects(parts) && i < |parts|
  {
    var part, spent := parts[i], BodyBytes(parts, i, fetch, decode);
    IsBody(part) ==>
      && spent <= MAX_BODY_BYTES
      && (NeedsFetch(part) ==> part.size <= MAX_BODY_BYTES - spent && Answer(part, fetch).Some?)
      && (DataOf(part, fetch).Some? ==> DecodeAttachment(DataOf(part, fetch).value, MAX_BODY_BYTES - spent, decode).Some?)
  }

  /** The missing bodies among the first n parts, as fetched. */
  function Fetched(parts: seq<Part>, n: nat, fetch: Fetcher): map<nat, string>
    requires Objects(parts) && n <= |parts|
  {
    if n == 0 then map[]
    else
      var part, rest := parts[n - 1], Fetched(parts, n - 1, fetch);
      if IsBody(part) && NeedsFetch(part) && Answer(part, fetch).Some? then rest[n - 1 := Answer(part, fetch).value] else rest
  }

  lemma {:induction false} FetchedExactly(parts: seq<Part>, n: nat, fetch: Fetcher, i: nat)
    requires Objects(parts) && n <= |parts|
    ensures i in Fetched(parts, n, fetch) <==>
      i < n && IsBody(parts[i]) && NeedsFetch(parts[i]) && Answer(parts[i], fetch).Some?
    ensures i in Fetched(parts, n, fetch) ==> Some(Fetched(parts, n, fetch)[i]) == Answer(parts[i], fetch)
  {
    if n > 0 {
      FetchedExactly(parts, n - 1, fetch, i);
    }
  }

  /** _payload of a Gmail message: a copy with every missing text body filled in; None exactly when
      the tree is beyond a limit, or some body is announced, answered or decoded beyond what is
      left of the limit, or not at all. */
  method Payload(root: Part, fetch: Fetcher, decode: Decoder) returns (payload: Option<Part>)
    requires root.Part?
    ensures Objects(Preorder(root))
    ensures payload.Some? <==> Within(root) && forall i :: 0 <= i < |Preorder(root)| ==> Payable(Preorder(root), i, fetch, decode)
    ensures payload.Some? ==> payload.value == Refill(root, 0, Fetched(Preorder(root), |Preorder(root)|, fetch))
    ensures payload.Some? ==> BodyBytes(Preorder(root), |Preorder(root)|, fetch, decode) <= MAX_BODY_BYTES
  {
    PreorderIsObjects(root);
    var walked := Parts(root);
    if walked.None? {
      return None;
    }
    var parts := walked.value;
    var filled: map<nat, string> := map[];
    var total: nat := 0;
    for i := 0 to |parts|
      invariant forall j :: 0 <= j < i ==> Payable(parts, j, fetch, decode)
      invariant filled == Fetched(parts, i, fetch)
      invariant total == BodyBytes(parts, i, fetch, decode) && total <= MAX_BODY_BYTES
    {
      var part := parts[i];
      if !IsBody(part) {
        continue;
      }
      var data := part.data;
      if NeedsFetch(part) {
        if part.size > MAX_BODY_BYTES - total {
          assert !Payable(parts, i, fetch, decode);
          return None;
        }
        data := Answer(part, fetch);
        if data.None? {
          assert !Payable(parts, i, fetch, decode);
          return None;
        }
        filled := filled[i := data.value];
      }
      if data.Some? {
        var length := DecodeAttachment(data.value, MAX_BODY_BYTES - total, decode);
        if length.None? {
          assert !Payable(parts, i, fetch, decode);
          return None;
        }
        total := total + length.value;
      }
    }
    return Some(Refill(root, 0, filled));
  }
}
