/**
  The classified nodes the Crntl token source (crntl_read) hands to the tree
  builder, one per call.

  A C ParserValue is a kind discriminator plus a union payload; the union is
  read according to the kind. Here the payload shapes become a datatype, the
  linked lists of items (head_item / next) become sequences, and the pointers
  to a tag, a tagged value or a boxed value become direct children.
 */
module Nodes {
  import opened Values

  /** The node kinds of the C enum the builder switches on; anything else is Unrecognised. */
  datatype NodeKind =
    | ErrorKind | EndKind | PrimitiveKind
    | ListKind | SetKind | VectKind | DictKind | TaggedKind
    | DerefKind | QuasiquoteKind | UnquoteKind | UnquoteSpliceKind
    | MetaKind | VarquoteKind | QuoteKind
    | Unrecognised(code: int)

  /** The token types of a primitive node; anything else is OtherToken. */
  datatype TokenType =
    | IntVal | FloatVal | SymbolVal | KeywordVal | StringVal | CharVal
    | OtherToken(code: int)

  datatype Node = Node(kind: NodeKind, payload: Payload)

  datatype Payload =
    | NoPayload
      /**
        A token: its type and its wide-character buffer of wcs_length code units,
        the last of which is the terminator.
       */
    | Token(token: TokenType, wcs: seq<int>)
    | Items(items: seq<Node>)
    | Entries(entries: seq<(Node, Node)>)
    | TaggedPair(tag: Node, value: Node)
    | BoxedChild(child: Node)

  /** The atom kind a token type selects, if any. */
  function AtomKindOf(t: TokenType): (a: Option<AtomKind>) {
    match t
    case IntVal => Some(IntAtom)
    case FloatVal => Some(FloatAtom)
    case SymbolVal => Some(SymbolAtom)
    case KeywordVal => Some(KeywordAtom)
    case StringVal => Some(StringAtom)
    case CharVal => Some(CharAtom)
    case OtherToken(_) => None
  }

  /** The sequence kind a node kind selects, if any. */
  function SeqKindOf(k: NodeKind): (sk: Option<SeqKind>) {
    match k
    case ListKind => Some(ListSeq)
    case SetKind => Some(SetSeq)
    case VectKind => Some(VectorSeq)
    case _ => None
  }

  /** The wrapper kind a node kind selects, if any. */
  function BoxKindOf(k: NodeKind): (bk: Option<BoxKind>) {
    match k
    case DerefKind => Some(Deref)
    case QuasiquoteKind => Some(Quasiquote)
    case UnquoteKind => Some(Unquote)
    case UnquoteSpliceKind => Some(UnquoteSplice)
    case MetaKind => Some(Meta)
    case VarquoteKind => Some(Varquote)
    case QuoteKind => Some(Quote)
    case _ => None
  }

  /**
    A primitive node the builder turns into an atom: a recognised token type and
    a buffer holding at least the terminator, so that wcs_length - 1 is not negative.
   */
  predicate IsAtomNode(n: Node) {
    && n.kind == PrimitiveKind
    && n.payload.Token?
    && AtomKindOf(n.payload.token).Some?
    && |n.payload.wcs| >= 1
  }

  /** The only tag the builder's forced cast to SymbolValue accepts. */
  predicate IsSymbolNode(n: Node) {
    IsAtomNode(n) && n.payload.token == SymbolVal
  }

  /**
    What the builder demands of a node so that it neither reads a union member
    the kind does not select, nor builds a negative-length buffer, nor fails its
    forced cast of a tag to a symbol. Error, End and unrecognised kinds demand
    nothing: their payload is never read.
   */
  predicate Buildable(n: Node)
    decreases n
  {
    match n.kind
    case ErrorKind => true
    case EndKind => true
    case Unrecognised(_) => true
    case PrimitiveKind =>
      && n.payload.Token?
      && (AtomKindOf(n.payload.token).Some? ==> |n.payload.wcs| >= 1)
    case ListKind | SetKind | VectKind =>
      && n.payload.Items?
      && forall i | 0 <= i < |n.payload.items| :: Buildable(n.payload.items[i])
    case DictKind =>
      && n.payload.Entries?
      && forall i | 0 <= i < |n.payload.entries| ::
           Buildable(n.payload.entries[i].0) && Buildable(n.payload.entries[i].1)
    case TaggedKind =>
      && n.payload.TaggedPair?
      && IsSymbolNode(n.payload.tag)
      && Buildable(n.payload.value)
    case _ =>
      && n.payload.BoxedChild?
      && Buildable(n.payload.child)
  }
}
