/**
  The value tree builder object(for_value:) and the initialisers it dispatches
  to (Parser/Parser.swift, lines 41-58, 146-153, 196-218 and 233-290).

  The decoding of an atom's code units (String(data:encoding: .utf32LittleEndian)
  in the source) is a parameter: a total function that may fail.
 */
module Builder {
  import opened Values
  import opened Nodes

  type Decoder = seq<int> -> Option<string>

  /** The text of an atom: its code units decoded, with the placeholder when decoding fails. */
  function AtomText(wcs: seq<int>, decode: Decoder): (text: string)
    requires |wcs| >= 1
  {
    match decode(wcs[..|wcs| - 1])
    case Some(s) => s
    case None => DecodeFailedText
  }

  /**
    For a buffer of code units followed by a terminator, whatever its value, the
    atom text is the decoding of the units alone, or the placeholder.
   */
  lemma AtomTextDropsTerminator(units: seq<int>, terminator: int, decode: Decoder)
    ensures decode(units).Some? ==> AtomText(units + [terminator], decode) == decode(units).value
    ensures decode(units).None? ==> AtomText(units + [terminator], decode) == DecodeFailedText
  {
    assert (units + [terminator])[..|units|] == units;
  }

  /** object(for_value:): one node, and transitively its children, to one value. */
  function Build(n: Node, decode: Decoder): (v: Value)
    requires Buildable(n)
    decreases n, 1
  {
    match n.kind
    case ErrorKind => Error(ParseErrorMessage)
    case EndKind => End
    case PrimitiveKind =>
      (match AtomKindOf(n.payload.token)
       case Some(a) => Atom(a, AtomText(n.payload.wcs, decode))
       case None => Error(UnknownPrimitiveMessage))
    case ListKind => Sequence(ListSeq, BuildItems(n.payload.items, decode))
    case SetKind => Sequence(SetSeq, BuildItems(n.payload.items, decode))
    case VectKind => Sequence(VectorSeq, BuildItems(n.payload.items, decode))
    case DictKind => Dictionary(BuildEntries(n.payload.entries, decode))
    case TaggedKind =>
      // The forced cast `as! SymbolValue` succeeds because the tag is a symbol node.
      var tag := Build(n.payload.tag, decode);
      Tagged(tag.text, Build(n.payload.value, decode))
    case DerefKind => Boxed(Deref, Build(n.payload.child, decode))
    case QuasiquoteKind => Boxed(Quasiquote, Build(n.payload.child, decode))
    case UnquoteKind => Boxed(Unquote, Build(n.payload.child, decode))
    case UnquoteSpliceKind => Boxed(UnquoteSplice, Build(n.payload.child, decode))
    case MetaKind => Boxed(Meta, Build(n.payload.child, decode))
    case VarquoteKind => Boxed(Varquote, Build(n.payload.child, decode))
    case QuoteKind => Boxed(Quote, Build(n.payload.child, decode))
    case Unrecognised(_) => Error(UnknownCompositeMessage)
  }

  /**
    The dispatch table of object(for_value:), and what each initialiser makes of
    the node's children.
   */
  lemma BuildShape(n: Node, decode: Decoder)
    requires Buildable(n)
    // Error and End nodes: fixed results, whatever the payload holds.
    ensures n.kind == ErrorKind ==> Build(n, decode) == Error(ParseErrorMessage)
    ensures n.kind == EndKind ==> Build(n, decode) == End
    ensures n.kind.Unrecognised? ==> Build(n, decode) == Error(UnknownCompositeMessage)
    // Primitive nodes: the atom of the token's kind, or an error for an unknown token.
    ensures n.kind == PrimitiveKind && AtomKindOf(n.payload.token).None? ==>
              Build(n, decode) == Error(UnknownPrimitiveMessage)
    ensures IsAtomNode(n) ==>
              Build(n, decode) == Atom(AtomKindOf(n.payload.token).value, AtomText(n.payload.wcs, decode))
    // List, Set and Vector: one value per child, in order, under the node's own kind.
    ensures SeqKindOf(n.kind).Some? ==>
              && Build(n, decode).Sequence?
              && Build(n, decode).seqKind == SeqKindOf(n.kind).value
              && |Build(n, decode).contents| == |n.payload.items|
              && forall i | 0 <= i < |Build(n, decode).contents| :: Build(n, decode).contents[i] == Build(n.payload.items[i], decode)
    // Dictionary: one entry per key/value pair, in order, duplicates kept.
    ensures n.kind == DictKind ==>
              && Build(n, decode).Dictionary?
              && |Build(n, decode).entries| == |n.payload.entries|
              && forall i | 0 <= i < |Build(n, decode).entries| ::
                   Build(n, decode).entries[i] == (Build(n.payload.entries[i].0, decode), Build(n.payload.entries[i].1, decode))
    // Tagged: the tag builds to a Symbol whose text is kept; the payload is built.
    ensures n.kind == TaggedKind ==>
              && Build(n, decode).Tagged?
              && Build(n.payload.tag, decode) == Atom(SymbolAtom, Build(n, decode).tag)
              && Build(n, decode).content == Build(n.payload.value, decode)
    // Wrappers: the matching wrapper around the built child.
    ensures BoxKindOf(n.kind).Some? ==>
              Build(n, decode) == Boxed(BoxKindOf(n.kind).value, Build(n.payload.child, decode))
  {
  }

  /** List, Set and Vector nodes over the same children build to the same contents. */
  lemma SequenceKindsDifferOnlyInTag(k1: NodeKind, k2: NodeKind, items: seq<Node>, decode: Decoder)
    requires SeqKindOf(k1).Some? && SeqKindOf(k2).Some?
    requires forall i | 0 <= i < |items| :: Buildable(items[i])
    ensures Buildable(Node(k1, Items(items))) && Buildable(Node(k2, Items(items)))
    ensures Build(Node(k1, Items(items)), decode).contents == Build(Node(k2, Items(items)), decode).contents
  {
    BuildShape(Node(k1, Items(items)), decode);
    BuildShape(Node(k2, Items(items)), decode);
  }

  /**
    The item loop of SequenceValue.init: the children built one after another
    and appended in order.
   */
  function BuildItems(items: seq<Node>, decode: Decoder): (r: seq<Value>)
    requires forall i | 0 <= i < |items| :: Buildable(items[i])
    decreases items, 0
    ensures |r| == |items|
    ensures forall i | 0 <= i < |items| :: r[i] == Build(items[i], decode)
  {
    if |items| == 0 then []
    else
      var front := items[..|items| - 1];
      assert forall i | 0 <= i < |front| :: front[i] == items[i];
      BuildItems(front, decode) + [Build(items[|items| - 1], decode)]
  }

  /** One DictionaryEntryValue: the key built, then the value. */
  function BuildEntry(e: (Node, Node), decode: Decoder): (r: (Value, Value))
    requires Buildable(e.0) && Buildable(e.1)
    decreases e, 0
  {
    (Build(e.0, decode), Build(e.1, decode))
  }

  /**
    The entry loop of DictionaryValue.init: each pair built and appended in order.
   */
  function BuildEntries(entries: seq<(Node, Node)>, decode: Decoder): (r: seq<(Value, Value)>)
    requires forall i | 0 <= i < |entries| :: Buildable(entries[i].0) && Buildable(entries[i].1)
    decreases entries, 0
    ensures |r| == |entries|
    ensures forall i | 0 <= i < |entries| :: r[i] == BuildEntry(entries[i], decode)
  {
    if |entries| == 0 then []
    else
      var front := entries[..|entries| - 1];
      assert forall i | 0 <= i < |front| :: front[i] == entries[i];
      BuildEntries(front, decode) + [BuildEntry(entries[|entries| - 1], decode)]
  }
}
