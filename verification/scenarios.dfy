/**
  Concrete read sessions: small node streams, as the token source would hand
  them out for short inputs, and what the read loop returns for them.
 */
module Scenarios {
  import opened Values
  import opened Nodes
  import opened Builder
  import opened Reader
  import Unbuild
  import Utf32

  const EndNode: Node := Node(EndKind, NoPayload)
  const ErrorNode: Node := Node(ErrorKind, NoPayload)

  function IntNode(text: string): (n: Node)
    ensures Buildable(n) && Build(n, Utf32.Decode) == Atom(IntAtom, text)
  {
    Unbuild.AtomTextOfEncoding(text, 0);
    Unbuild.AtomNode(IntAtom, text)
  }

  /** An empty input: End straight away, and no values. */
  lemma EmptyInputYieldsNothing(rest: seq<Node>)
    ensures HasStop([EndNode] + rest, Utf32.Decode)
    ensures ParseFile(true, [EndNode] + rest, Utf32.Decode) == []
  {
    EndReturnsEarlierValues([], EndNode, rest, Utf32.Decode);
    assert [] + [EndNode] + rest == [EndNode] + rest;
  }

  /** Forms come back in the order they were read: "1 2 3" gives three Ints. */
  lemma FormsKeepStreamOrder()
    ensures HasStop([IntNode("1"), IntNode("2"), IntNode("3"), EndNode], Utf32.Decode)
    ensures ParseFile(true, [IntNode("1"), IntNode("2"), IntNode("3"), EndNode], Utf32.Decode)
            == [Atom(IntAtom, "1"), Atom(IntAtom, "2"), Atom(IntAtom, "3")]
  {
    var prefix := [IntNode("1"), IntNode("2"), IntNode("3")];
    EndReturnsEarlierValues(prefix, EndNode, [], Utf32.Decode);
    assert prefix + [EndNode] + [] == [IntNode("1"), IntNode("2"), IntNode("3"), EndNode];
    assert BuildItems(prefix, Utf32.Decode) == [Atom(IntAtom, "1"), Atom(IntAtom, "2"), Atom(IntAtom, "3")];
  }

  /** A malformed second form discards the first: "1 )bad(" gives the error alone. */
  lemma MalformedSecondFormDiscardsFirst(rest: seq<Node>)
    ensures HasStop([IntNode("1"), ErrorNode] + rest, Utf32.Decode)
    ensures ParseFile(true, [IntNode("1"), ErrorNode] + rest, Utf32.Decode) == [Error(ParseErrorMessage)]
  {
    ErrorDiscardsEarlierValues([IntNode("1")], ErrorNode, rest, Utf32.Decode);
    assert [IntNode("1")] + [ErrorNode] + rest == [IntNode("1"), ErrorNode] + rest;
  }

  /** A file that cannot be opened gives the one error, whatever the stream. */
  lemma MissingFileYieldsOneError(stream: seq<Node>, decode: Decoder)
    ensures ParseFile(false, stream, decode) == [Error(FileMissingMessage)]
  {
  }

  /** "#foo 1": a tagged literal keeps the tag's text and builds its payload. */
  lemma TaggedLiteral()
    ensures var n := Node(TaggedKind, TaggedPair(Unbuild.AtomNode(SymbolAtom, "foo"), IntNode("1")));
            Buildable(n) && Build(n, Utf32.Decode) == Tagged("foo", Atom(IntAtom, "1"))
  {
    Unbuild.AtomTextOfEncoding("foo", 0);
  }

  /**
    An atom whose code units do not decode keeps the read going with the
    placeholder text; it is not an Error.
   */
  lemma UndecodableAtomIsNotAnError()
    ensures var n := Node(PrimitiveKind, Token(StringVal, [0xD800, 0]));
            && HasStop([n, EndNode], Utf32.Decode)
            && ParseFile(true, [n, EndNode], Utf32.Decode) == [Atom(StringAtom, DecodeFailedText)]
  {
    var n := Node(PrimitiveKind, Token(StringVal, [0xD800, 0]));
    assert [0xD800, 0][..1] == [0xD800];
    assert !Utf32.IsScalar(0xD800);
    EndReturnsEarlierValues([n], EndNode, [], Utf32.Decode);
    assert [n] + [EndNode] + [] == [n, EndNode];
  }

  /**
    An unknown token inside a list builds to an Error nested in the list; the
    read loop looks only at top-level values, so the read succeeds with it.
   */
  lemma NestedErrorDoesNotStopTheRead()
    ensures var list := Node(ListKind, Items([Node(PrimitiveKind, Token(OtherToken(99), []))]));
            && HasStop([list, EndNode], Utf32.Decode)
            && ParseFile(true, [list, EndNode], Utf32.Decode)
               == [Sequence(ListSeq, [Error(UnknownPrimitiveMessage)])]
  {
    var child := Node(PrimitiveKind, Token(OtherToken(99), []));
    var list := Node(ListKind, Items([child]));
    assert Build(child, Utf32.Decode) == Error(UnknownPrimitiveMessage);
    var built := Build(list, Utf32.Decode);
    assert built.contents == [Error(UnknownPrimitiveMessage)];
    assert built == Sequence(ListSeq, [Error(UnknownPrimitiveMessage)]);
    EndReturnsEarlierValues([list], EndNode, [], Utf32.Decode);
    assert [list] + [EndNode] + [] == [list, EndNode];
    assert BuildItems([list], Utf32.Decode) == [built];
  }
}
