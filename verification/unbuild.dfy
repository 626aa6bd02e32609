/**
  A reference inverse of the tree builder: for every value the builder can
  produce, a node that builds back to exactly that value. Together with
  BuildIsProducible this pins down the image of object(for_value:): the values
  whose every Error carries one of the builder's own diagnostics.
 */
module Unbuild {
  import opened Values
  import opened Nodes
  import opened Builder
  import Utf32

  function TokenOf(a: AtomKind): (t: TokenType)
    ensures AtomKindOf(t) == Some(a)
  {
    match a
    case IntAtom => IntVal
    case FloatAtom => FloatVal
    case SymbolAtom => SymbolVal
    case KeywordAtom => KeywordVal
    case StringAtom => StringVal
    case CharAtom => CharVal
  }

  function SeqNodeKind(k: SeqKind): (nk: NodeKind)
    ensures SeqKindOf(nk) == Some(k)
  {
    match k
    case ListSeq => ListKind
    case SetSeq => SetKind
    case VectorSeq => VectKind
  }

  function BoxNodeKind(b: BoxKind): (nk: NodeKind)
    ensures BoxKindOf(nk) == Some(b)
  {
    match b
    case Deref => DerefKind
    case Quasiquote => QuasiquoteKind
    case Unquote => UnquoteKind
    case UnquoteSplice => UnquoteSpliceKind
    case Meta => MetaKind
    case Varquote => VarquoteKind
    case Quote => QuoteKind
  }

  /** A primitive node for an atom: the text's code units followed by a terminator. */
  function AtomNode(a: AtomKind, text: string): (n: Node)
    ensures IsAtomNode(n)
  {
    Node(PrimitiveKind, Token(TokenOf(a), Utf32.Encode(text) + [0]))
  }

  function Unbuild(v: Value): (n: Node)
    decreases v
  {
    match v
    case End => Node(EndKind, NoPayload)
    case Error(m) =>
      if m == UnknownPrimitiveMessage then Node(PrimitiveKind, Token(OtherToken(-1), []))
      else if m == UnknownCompositeMessage then Node(Unrecognised(-1), NoPayload)
      else Node(ErrorKind, NoPayload)
    case Atom(a, text) => AtomNode(a, text)
    case Sequence(k, contents) =>
      Node(SeqNodeKind(k), Items(seq(|contents|, i requires 0 <= i < |contents| => Unbuild(contents[i]))))
    case Dictionary(entries) =>
      Node(DictKind, Entries(seq(|entries|, i requires 0 <= i < |entries| =>
                                   (Unbuild(entries[i].0), Unbuild(entries[i].1)))))
    case Tagged(tag, content) => Node(TaggedKind, TaggedPair(AtomNode(SymbolAtom, tag), Unbuild(content)))
    case Boxed(b, content) => Node(BoxNodeKind(b), BoxedChild(Unbuild(content)))
  }

  /** The atom text of an encoded buffer is the encoded text: the terminator is dropped. */
  lemma AtomTextOfEncoding(text: string, terminator: int)
    ensures AtomText(Utf32.Encode(text) + [terminator], Utf32.Decode) == text
  {
    AtomTextDropsTerminator(Utf32.Encode(text), terminator, Utf32.Decode);
    Utf32.DecodeEncode(text);
  }

  /** Every node the inverse yields satisfies the builder's demands. */
  lemma {:induction false} UnbuildIsBuildable(v: Value)
    ensures Buildable(Unbuild(v))
    decreases v
  {
    match v
    case End =>
    case Error(_) =>
    case Atom(_, _) =>
    case Sequence(_, contents) =>
      forall i | 0 <= i < |contents| ensures Buildable(Unbuild(contents[i])) {
        UnbuildIsBuildable(contents[i]);
      }
    case Dictionary(entries) =>
      forall i | 0 <= i < |entries|
        ensures Buildable(Unbuild(entries[i].0)) && Buildable(Unbuild(entries[i].1))
      {
        UnbuildIsBuildable(entries[i].0);
        UnbuildIsBuildable(entries[i].1);
      }
    case Tagged(_, content) => UnbuildIsBuildable(content);
    case Boxed(_, content) => UnbuildIsBuildable(content);
  }

  /** Round trip: building the inverse's node, with UTF-32 decoding, gives the value back. */
  lemma {:induction false} BuildUnbuild(v: Value)
    requires Producible(v)
    ensures Buildable(Unbuild(v))
    ensures Build(Unbuild(v), Utf32.Decode) == v
    decreases v
  {
    UnbuildIsBuildable(v);
    var n := Unbuild(v);
    BuildShape(n, Utf32.Decode);
    match v
    case End =>
    case Error(_) =>
    case Atom(a, text) => AtomTextOfEncoding(text, 0);
    case Sequence(k, contents) =>
      var r := Build(n, Utf32.Decode);
      assert |r.contents| == |contents|;
      forall i | 0 <= i < |contents| ensures r.contents[i] == contents[i] {
        assert r.contents[i] == Build(n.payload.items[i], Utf32.Decode);
        assert n.payload.items[i] == Unbuild(contents[i]);
        BuildUnbuild(contents[i]);
      }
      assert r.contents == contents;
    case Dictionary(entries) =>
      var r := Build(n, Utf32.Decode);
      assert |r.entries| == |entries|;
      forall i | 0 <= i < |entries| ensures r.entries[i] == entries[i] {
        assert n.payload.entries[i] == (Unbuild(entries[i].0), Unbuild(entries[i].1));
        BuildUnbuild(entries[i].0);
        BuildUnbuild(entries[i].1);
      }
      assert r.entries == entries;
    case Tagged(tag, content) =>
      AtomTextOfEncoding(tag, 0);
      BuildUnbuild(content);
    case Boxed(_, content) => BuildUnbuild(content);
  }

  /** Every value the builder produces, whatever the decoder, is producible. */
  lemma {:induction false} BuildIsProducible(n: Node, decode: Decoder)
    requires Buildable(n)
    ensures Producible(Build(n, decode))
    decreases n
  {
    var r := Build(n, decode);
    BuildShape(n, decode);
    match n.kind
    case ListKind | SetKind | VectKind =>
      forall i | 0 <= i < |r.contents| ensures Producible(r.contents[i]) {
        BuildIsProducible(n.payload.items[i], decode);
      }
    case DictKind =>
      forall i | 0 <= i < |r.entries| ensures Producible(r.entries[i].0) && Producible(r.entries[i].1) {
        BuildIsProducible(n.payload.entries[i].0, decode);
        BuildIsProducible(n.payload.entries[i].1, decode);
      }
    case TaggedKind => BuildIsProducible(n.payload.value, decode);
    case DerefKind | QuasiquoteKind | UnquoteKind | UnquoteSpliceKind | MetaKind | VarquoteKind | QuoteKind =>
      BuildIsProducible(n.payload.child, decode);
    case _ =>
  }
}
