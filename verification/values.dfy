/**
  The value tree produced by the Crntl reader (Parser/Parser.swift, lines 12-219).

  The Swift class hierarchy Value -> PrimitiveValue / SequenceValue / BoxedValue ->
  concrete classes is collapsed into one closed datatype. Each intermediate class
  becomes a constructor, and the concrete class becomes a kind tag on it, so that
  "List, Set and Vector differ only in their tag" holds by construction.
 */
module Values {

  /** The conventional Some/None wrapper, used for partial decoding. */
  datatype Option<+T> = None | Some(value: T)

  /** The concrete subclasses of PrimitiveValue. */
  datatype AtomKind = IntAtom | FloatAtom | SymbolAtom | KeywordAtom | StringAtom | CharAtom

  /** The concrete subclasses of SequenceValue other than DictionaryValue. */
  datatype SeqKind = ListSeq | SetSeq | VectorSeq

  /** The concrete subclasses of BoxedValue (reader-macro wrappers). */
  datatype BoxKind = Deref | Quasiquote | Unquote | UnquoteSplice | Meta | Varquote | Quote

  datatype Value =
    | End
    | Error(message: string)
    | Atom(atom: AtomKind, text: string)
    | Sequence(seqKind: SeqKind, contents: seq<Value>)
      /** DictionaryValue: entries kept in source order, duplicate keys included. */
    | Dictionary(entries: seq<(Value, Value)>)
      /** TaggedValue: the Swift field is typed SymbolValue, so only the symbol's text is kept. */
    | Tagged(tag: string, content: Value)
    | Boxed(box: BoxKind, content: Value)

  /** The diagnostics the builder and the read loop attach to Error values. */
  const ParseErrorMessage: string := "Error encountered while parsing"
  const UnknownPrimitiveMessage: string := "Unknown primitive value"
  const UnknownCompositeMessage: string := "Unknown composite value"
  const FileMissingMessage: string := "File does not exist"

  /** The text an atom carries when its code units cannot be decoded. */
  const DecodeFailedText: string := "PARSEFAILED"

  /** End and Error stop the read loop; every other value is data. */
  predicate IsSentinel(v: Value) {
    v.End? || v.Error?
  }

  /** The diagnostics the tree builder can produce on its own. */
  predicate IsBuilderMessage(m: string) {
    m == ParseErrorMessage || m == UnknownPrimitiveMessage || m == UnknownCompositeMessage
  }

  /**
    A value the tree builder can produce: every Error in it, at any depth, carries
    one of the builder's own diagnostics.
   */
  predicate Producible(v: Value)
    decreases v
  {
    match v
    case End => true
    case Error(m) => IsBuilderMessage(m)
    case Atom(_, _) => true
    case Sequence(_, contents) => forall i | 0 <= i < |contents| :: Producible(contents[i])
    case Dictionary(entries) =>
      forall i | 0 <= i < |entries| :: Producible(entries[i].0) && Producible(entries[i].1)
    case Tagged(_, content) => Producible(content)
    case Boxed(_, content) => Producible(content)
  }
}
