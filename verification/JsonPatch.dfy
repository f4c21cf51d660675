/** Applying patches: what the operations of a JSON Patch do to a document. */
module JsonPatch {
  import opened Options
  import opened Json

  /** An operation whose pointer has been parsed, relative to some place in a document. */
  datatype Edit = Edit(kind: Kind, tokens: seq<string>, value: Json)

  /** One operation on a whole document; None is an error. */
  function ApplyEdit(doc: Json, e: Edit): Option<Json>
    decreases |e.tokens|, 0
  {
    if e.tokens == [] then Some(e.value)
    else
      var token := e.tokens[0];
      var rest := e.(tokens := e.tokens[1..]);
      match doc
      case Obj(members) =>
        (match ApplyToSlot(Member(members, token), rest)
         case None => None
         case Some(d) => Some(Obj(members[token := d])))
      case Arr(items) =>
        if rest.tokens == [] then EditItems(items, token, e.kind, e.value)
        else
          (match ParseIndex(token)
           case None => None
           case Some(i) =>
             if i >= |items| then None
             else
               match ApplyEdit(items[i], rest)
               case None => None
               case Some(d) => Some(Arr(items[i := d])))
      case _ => None
  }

  /** A member that may be missing: adding creates it, replacing needs it (section 4.3 of RFC 6902). */
  function ApplyToSlot(slot: Option<Json>, e: Edit): Option<Json>
    decreases |e.tokens|, 1
  {
    if e.tokens == [] then if e.kind == Add || slot.Some? then Some(e.value) else None
    else
      match slot
      case None => None
      case Some(doc) => ApplyEdit(doc, e)
  }

  /** The last token points into an array: adding inserts, and "-" is the place after the end. */
  function EditItems(items: seq<Json>, token: string, kind: Kind, value: Json): Option<Json> {
    if token == "-" then if kind == Add then Some(Arr(items + [value])) else None
    else
      match ParseIndex(token)
      case None => None
      case Some(i) =>
        if kind == Add then if i <= |items| then Some(Arr(items[..i] + [value] + items[i..])) else None
        else if i < |items| then Some(Arr(items[i := value])) else None
  }

  function Member(members: map<string, Json>, name: string): Option<Json> {
    if name in members then Some(members[name]) else None
  }

  function WithMember(members: map<string, Json>, name: string, slot: Option<Json>): map<string, Json> {
    match slot
    case None => members
    case Some(d) => members[name := d]
  }

  /** A patch is applied operation by operation, and fails as a whole if one of them fails. */
  function ApplyPatch(doc: Json, ops: seq<Operation>): Option<Json>
    decreases |ops|
  {
    if ops == [] then Some(doc)
    else
      match Tokens(ops[0].path)
      case None => None
      case Some(tokens) =>
        match ApplyEdit(doc, Edit(ops[0].kind, tokens, ops[0].value))
        case None => None
        case Some(d) => ApplyPatch(d, ops[1..])
  }

  function ApplyEdits(doc: Json, edits: seq<Edit>): Option<Json>
    decreases |edits|
  {
    if edits == [] then Some(doc)
    else
      match ApplyEdit(doc, edits[0])
      case None => None
      case Some(d) => ApplyEdits(d, edits[1..])
  }

  /** The same on a member that may be missing, which may also stay missing. */
  function ApplyAllToSlot(slot: Option<Json>, edits: seq<Edit>): (r: Option<Option<Json>>)
    ensures slot.Some? && r.Some? ==> r.value.Some?
    decreases |edits|
  {
    if edits == [] then Some(slot)
    else
      match ApplyToSlot(slot, edits[0])
      case None => None
      case Some(d) => ApplyAllToSlot(Some(d), edits[1..])
  }

  // ----- moving edits deeper -----

  function Under(token: string, edits: seq<Edit>): seq<Edit> {
    seq(|edits|, i requires 0 <= i < |edits| => edits[i].(tokens := [token] + edits[i].tokens))
  }

  lemma {:induction false} EditsConcat(doc: Json, a: seq<Edit>, b: seq<Edit>)
    ensures ApplyEdits(doc, a + b) ==
            match ApplyEdits(doc, a) { case None => None case Some(d) => ApplyEdits(d, b) }
    decreases |a|
  {
    if a == [] {
      assert a + b == b;
    } else {
      assert (a + b)[1..] == a[1..] + b;
      var next := ApplyEdit(doc, a[0]);
      if next.Some? {
        EditsConcat(next.value, a[1..], b);
      }
    }
  }

  lemma {:induction false} SlotEditsConcat(slot: Option<Json>, a: seq<Edit>, b: seq<Edit>)
    ensures ApplyAllToSlot(slot, a + b) ==
            match ApplyAllToSlot(slot, a) { case None => None case Some(s) => ApplyAllToSlot(s, b) }
    decreases |a|
  {
    if a == [] {
      assert a + b == b;
    } else {
      assert (a + b)[1..] == a[1..] + b;
      var next := ApplyToSlot(slot, a[0]);
      if next.Some? {
        SlotEditsConcat(next, a[1..], b);
      }
    }
  }

  lemma UnderStep(token: string, edits: seq<Edit>)
    requires edits != []
    ensures Under(token, edits)[0].tokens[1..] == edits[0].tokens
    ensures Under(token, edits)[1..] == Under(token, edits[1..])
  {
  }

  /** Edits below one member act on that member and leave the others alone. */
  lemma {:induction false} EditsInMember(members: map<string, Json>, name: string, edits: seq<Edit>)
    ensures ApplyEdits(Obj(members), Under(name, edits)) ==
            match ApplyAllToSlot(Member(members, name), edits)
            { case None => None case Some(slot) => Some(Obj(WithMember(members, name, slot))) }
    decreases |edits|
  {
    if edits == [] {
      assert WithMember(members, name, Member(members, name)) == members;
    } else {
      UnderStep(name, edits);
      var first := Under(name, edits)[0];
      assert first.(tokens := first.tokens[1..]) == edits[0];
      var next := ApplyToSlot(Member(members, name), edits[0]);
      if next.Some? {
        var updated := members[name := next.value];
        EditsInMember(updated, name, edits[1..]);
        var last := ApplyAllToSlot(next, edits[1..]);
        if last.Some? && last.value.Some? {
          assert updated[name := last.value.value] == members[name := last.value.value];
        }
      }
    }
  }

  /** The document after edits below one member. */
  function Edited(members: map<string, Json>, name: string, edits: seq<Edit>): (after: map<string, Json>)
    requires ApplyAllToSlot(Member(members, name), edits).Some?
    ensures Member(after, name) == ApplyAllToSlot(Member(members, name), edits).value
    ensures forall other | other != name :: Member(after, other) == Member(members, other)
    ensures forall names: set<string> | name in names :: after - names == members - names
  {
    WithMember(members, name, ApplyAllToSlot(Member(members, name), edits).value)
  }

  lemma EditsBecome(members: map<string, Json>, name: string, edits: seq<Edit>)
    requires ApplyAllToSlot(Member(members, name), edits).Some?
    ensures ApplyEdits(Obj(members), Under(name, edits)) == Some(Obj(Edited(members, name, edits)))
  {
    EditsInMember(members, name, edits);
  }

  /** Edits below one member each. */
  datatype Part = Part(name: string, edits: seq<Edit>)

  function AllParts(parts: seq<Part>): seq<Edit> {
    if parts == [] then []
    else
      var n := |parts| - 1;
      AllParts(parts[..n]) + Under(parts[n].name, parts[n].edits)
  }

  lemma PartsOfFive(a: Part, b: Part, c: Part, d: Part, e: Part)
    ensures AllParts([a, b, c, d, e]) ==
            Under(a.name, a.edits) + Under(b.name, b.edits) + Under(c.name, c.edits) + Under(d.name, d.edits)
            + Under(e.name, e.edits)
  {
    hide Under;
    assert [a, b, c, d, e][..4] == [a, b, c, d] && [a, b, c, d][..3] == [a, b, c] && [a, b, c][..2] == [a, b];
    assert [a, b][..1] == [a] && [a][..0] == [];
    assert AllParts([a]) == Under(a.name, a.edits);
    assert AllParts([a, b]) == AllParts([a]) + Under(b.name, b.edits);
    assert AllParts([a, b, c]) == AllParts([a, b]) + Under(c.name, c.edits);
    assert AllParts([a, b, c, d]) == AllParts([a, b, c]) + Under(d.name, d.edits);
  }

  /** Edits of different members do not disturb each other. */
  lemma {:induction false} PartsAreIndependent(members: map<string, Json>, parts: seq<Part>)
    returns (after: map<string, Json>)
    requires forall i, j | 0 <= i < j < |parts| :: parts[i].name != parts[j].name
    requires forall p <- parts :: ApplyAllToSlot(Member(members, p.name), p.edits).Some?
    ensures ApplyEdits(Obj(members), AllParts(parts)) == Some(Obj(after))
    ensures forall p <- parts :: Member(after, p.name) == ApplyAllToSlot(Member(members, p.name), p.edits).value
    ensures forall name :: (forall p <- parts :: p.name != name) ==> Member(after, name) == Member(members, name)
    decreases |parts|
  {
    hide ApplyAllToSlot, Under, ApplyEdits;
    after := members;
    if parts == [] {
      NoEdits(members);
    } else {
      var n := |parts| - 1;
      var init, last := parts[..n], parts[n];
      var before := PartsAreIndependent(members, init);
      assert last in parts;
      EditsBecome(before, last.name, last.edits);
      EditsConcat(Obj(members), AllParts(init), Under(last.name, last.edits));
      after := Edited(before, last.name, last.edits);
      assert parts == init + [last];
    }
  }

  lemma NoEdits(members: map<string, Json>)
    ensures ApplyEdits(Obj(members), []) == Some(Obj(members))
  {
  }

  /** Edits strictly below one item of an array act on that item alone. */
  lemma {:induction false} EditsInItem(items: seq<Json>, i: nat, edits: seq<Edit>)
    requires i < |items|
    requires forall e <- edits :: e.tokens != []
    ensures ApplyEdits(Arr(items), Under(PrintNat(i), edits)) ==
            match ApplyEdits(items[i], edits)
            { case None => None case Some(d) => Some(Arr(items[i := d])) }
    decreases |edits|
  {
    if edits == [] {
      assert items[i := items[i]] == items;
    } else {
      IndexOfPrinted(i);
      UnderStep(PrintNat(i), edits);
      var first := Under(PrintNat(i), edits)[0];
      assert first.(tokens := first.tokens[1..]) == edits[0];
      assert edits[0] in edits;
      var next := ApplyEdit(items[i], edits[0]);
      if next.Some? {
        var updated := items[i := next.value];
        EditsInItem(updated, i, edits[1..]);
        var last := ApplyEdits(next.value, edits[1..]);
        if last.Some? {
          assert updated[i := last.value] == items[i := last.value];
        }
      }
    }
  }

  // ----- pointers as text -----

  /** The operations that make the edits below the place that the base pointer names. */
  function Spell(base: string, edits: seq<Edit>): seq<Operation> {
    seq(|edits|, i requires 0 <= i < |edits| =>
        Operation(edits[i].kind, base + PrintPointer(edits[i].tokens), edits[i].value))
  }

  lemma SpellUnder(base: string, token: string, edits: seq<Edit>)
    ensures Spell(base, Under(token, edits)) == Spell(base + "/" + Escape(token), edits)
  {
    forall i | 0 <= i < |edits|
      ensures Spell(base, Under(token, edits))[i] == Spell(base + "/" + Escape(token), edits)[i]
    {
      assert ([token] + edits[i].tokens)[1..] == edits[i].tokens;
    }
  }

  lemma SpellConcat(base: string, a: seq<Edit>, b: seq<Edit>)
    ensures Spell(base, a + b) == Spell(base, a) + Spell(base, b)
  {
  }

  /** A patch printed from edits does what the edits do. */
  lemma {:induction false} SpelledApplies(doc: Json, edits: seq<Edit>)
    ensures ApplyPatch(doc, Spell("", edits)) == ApplyEdits(doc, edits)
    decreases |edits|
  {
    if edits != [] {
      var ops := Spell("", edits);
      TokensOfPrinted(edits[0].tokens);
      assert ops[0].path == PrintPointer(edits[0].tokens);
      assert Edit(ops[0].kind, edits[0].tokens, ops[0].value) == edits[0];
      assert ops[1..] == Spell("", edits[1..]);
      var next := ApplyEdit(doc, edits[0]);
      if next.Some? {
        SpelledApplies(next.value, edits[1..]);
      }
    }
  }
}
