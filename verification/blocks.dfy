/** The program list of the Logic Forge page: the `LogicBlock` record, the
    template table used when a block is dropped on the workspace, and the
    delete filter. The list is kept in insertion order; execution order is
    derived from it separately (module Ordering). */
module Blocks {
  import opened Optional

  /** The five block types a `LogicBlock` can have. */
  datatype Kind = Move | Turn | If | Loop | Wait

  /** The parameter payload each template attaches. The engine never reads it;
      it is kept so that a dropped block can be compared with its template. */
  datatype Parameters =
    | Steps(steps: int)
    | Direction(direction: string)
    | Condition(condition: string)
    | Count(count: int)
    | Duration(duration: int)

  /** One placed block; `title` holds the source's `label`. `x` and `y` are
      canvas coordinates; only `y` matters to the engine, as the sort key of
      the execution order. */
  datatype Block = Block(
    id: string,
    kind: Kind,
    title: string,
    parameters: Parameters,
    x: int,
    y: int,
    connections: seq<string>)

  datatype Template = Template(title: string, parameters: Parameters)

  /** The drag token naming each kind (the keys of the template table). */
  function KindName(k: Kind): string {
    match k
    case Move => "move"
    case Turn => "turn"
    case If => "if"
    case Loop => "loop"
    case Wait => "wait"
  }

  const KindNames: set<string> := {"move", "turn", "if", "loop", "wait"}

  /** Looks a drag token up among the template keys. */
  function KindOf(token: string): (k: Option<Kind>)
    ensures k.Some? <==> token in KindNames
    ensures k.Some? ==> KindName(k.value) == token
  {
    if token == "move" then Some(Move)
    else if token == "turn" then Some(Turn)
    else if token == "if" then Some(If)
    else if token == "loop" then Some(Loop)
    else if token == "wait" then Some(Wait)
    else None
  }

  /** The template table of the drop handler. */
  function TemplateOf(k: Kind): Template {
    match k
    case Move => Template("Move Forward", Steps(1))
    case Turn => Template("Turn Right", Direction("right"))
    case If => Template("If Wall Ahead", Condition("wall"))
    case Loop => Template("Repeat 3 times", Count(3))
    case Wait => Template("Wait 1 second", Duration(1))
  }

  /** Every kind's token is recognised as that kind, and the templates tell the
      kinds apart by label. */
  lemma KindNameRoundTrip(k: Kind, k': Kind)
    ensures KindOf(KindName(k)) == Some(k)
    ensures TemplateOf(k).title == TemplateOf(k').title ==> k == k'
  {
  }

  /** Dropping a block of type `token` at (x, y). The id is an input: the page
      derives it from the clock, so it need not be unique. */
  function Drop(blocks: seq<Block>, token: string, id: string, x: int, y: int): (r: seq<Block>)
    ensures KindOf(token).None? ==> r == blocks
    ensures KindOf(token).Some? ==>
      && |r| == |blocks| + 1
      && r[..|blocks|] == blocks
      && KindName(r[|blocks|].kind) == token
      && r[|blocks|].id == id
      && r[|blocks|].title == TemplateOf(r[|blocks|].kind).title
      && r[|blocks|].parameters == TemplateOf(r[|blocks|].kind).parameters
      && r[|blocks|].x == x && r[|blocks|].y == y
      && r[|blocks|].connections == []
  {
    match KindOf(token)
    case None => blocks
    case Some(k) =>
      var t := TemplateOf(k);
      blocks + [Block(id, k, t.title, t.parameters, x, y, [])]
  }

  /** The delete filter: keeps the blocks whose id differs from `id`. */
  function Delete(blocks: seq<Block>, id: string): (r: seq<Block>)
    ensures |r| <= |blocks|
  {
    if |blocks| == 0 then []
    else (if blocks[0].id != id then [blocks[0]] else []) + Delete(blocks[1..], id)
  }

  /** Deleting distributes over concatenation, so the kept blocks stay in
      their original order. */
  lemma {:induction false} DeleteAppend(a: seq<Block>, b: seq<Block>, id: string)
    ensures Delete(a + b, id) == Delete(a, id) + Delete(b, id)
    decreases |a|
  {
    if |a| == 0 {
      assert a + b == b;
    } else {
      var head := if a[0].id != id then [a[0]] else [];
      assert a + b == [a[0]] + (a[1..] + b);
      DeleteCons(a[0], a[1..] + b, id);
      DeleteAppend(a[1..], b, id);
      assert a == [a[0]] + a[1..];
      DeleteCons(a[0], a[1..], id);
      assert head + (Delete(a[1..], id) + Delete(b, id)) == (head + Delete(a[1..], id)) + Delete(b, id);
    }
  }

  lemma DeleteCons(h: Block, t: seq<Block>, id: string)
    ensures Delete([h] + t, id) == (if h.id != id then [h] else []) + Delete(t, id)
  {
    assert ([h] + t)[1..] == t;
  }

  /** The blocks kept are exactly those whose id differs from `id`. */
  lemma {:induction false} DeleteKeeps(blocks: seq<Block>, id: string)
    ensures forall b :: b in Delete(blocks, id) <==> b in blocks && b.id != id
    decreases |blocks|
  {
    if |blocks| > 0 {
      DeleteKeeps(blocks[1..], id);
      assert blocks == [blocks[0]] + blocks[1..];
    }
  }

  /** With no block carrying `id`, deleting it changes nothing. */
  lemma {:induction false} DeleteAbsent(blocks: seq<Block>, id: string)
    requires forall b :: b in blocks ==> b.id != id
    ensures Delete(blocks, id) == blocks
    decreases |blocks|
  {
    if |blocks| > 0 {
      assert blocks[0] in blocks;
      assert forall b :: b in blocks[1..] ==> b in blocks;
      DeleteAbsent(blocks[1..], id);
      assert blocks == [blocks[0]] + blocks[1..];
    }
  }

  /** Deleting twice is deleting once. */
  lemma DeleteIdempotent(blocks: seq<Block>, id: string)
    ensures Delete(Delete(blocks, id), id) == Delete(blocks, id)
  {
    DeleteKeeps(blocks, id);
    DeleteAbsent(Delete(blocks, id), id);
  }

  /** Deleting the id just dropped removes the new block (and any older block
      sharing that id); with a fresh id it undoes the drop. */
  lemma DeleteUndoesDrop(blocks: seq<Block>, token: string, id: string, x: int, y: int)
    ensures Delete(Drop(blocks, token, id, x, y), id) == Delete(blocks, id)
    ensures (forall b :: b in blocks ==> b.id != id) ==> Delete(Drop(blocks, token, id, x, y), id) == blocks
  {
    if KindOf(token).Some? {
      var r := Drop(blocks, token, id, x, y);
      assert r == blocks + [r[|blocks|]];
      DeleteAppend(blocks, [r[|blocks|]], id);
    }
    if forall b :: b in blocks ==> b.id != id {
      DeleteAbsent(blocks, id);
    }
  }

  /** A drop under one id and a delete of another id commute. */
  lemma DropDeleteCommute(blocks: seq<Block>, token: string, id: string, x: int, y: int, other: string)
    requires other != id
    ensures Delete(Drop(blocks, token, id, x, y), other) == Drop(Delete(blocks, other), token, id, x, y)
  {
    if KindOf(token).Some? {
      var r := Drop(blocks, token, id, x, y);
      assert r == blocks + [r[|blocks|]];
      DeleteAppend(blocks, [r[|blocks|]], other);
    }
  }

  // The drop handler looks the token up with `blockTemplates[blockType]`, a
  // plain-object property read, and accepts anything truthy. Property names
  // every object inherits from Object.prototype are found too: they name
  // functions (or, for __proto__, the prototype object), all truthy.
  const InheritedNames: set<string> := {
    "constructor", "hasOwnProperty", "isPrototypeOf", "propertyIsEnumerable",
    "toLocaleString", "toString", "valueOf", "__proto__",
    "__defineGetter__", "__defineSetter__", "__lookupGetter__", "__lookupSetter__"
  }

  /** The `if (template)` guard as written: true for the five own keys and for
      every inherited property name. */
  predicate TemplateFoundAsWritten(token: string) {
    token in KindNames || token in InheritedNames
  }

  /** The guard as written lets exactly the inherited names through beyond
      the five kinds; "toString" is one, and `KindOf` rejects it. */
  lemma GuardAcceptsInheritedNames(token: string)
    ensures TemplateFoundAsWritten(token) && KindOf(token).None? <==> token in InheritedNames
    ensures TemplateFoundAsWritten("toString") && KindOf("toString") == None
    ensures Drop([], "toString", "block-1", 0, 0) == []
  {
    assert "toString" !in KindNames;
  }
}
