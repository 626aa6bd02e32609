/**
  The read loop parse(at_path:) (Parser/Parser.swift, lines 298-335).

  The token source is abstracted to the sequence of nodes it would hand out,
  one per crntl_read call; opening the file is abstracted to a boolean. The
  native crntl_freevalue and fclose calls are counted in ghost out-parameters.
 */
module Reader {
  import opened Values
  import opened Nodes
  import opened Builder

  /**
    The stream stops at position k: every node up to k can be built, node k
    builds to End or Error, and no node before it does. Nodes after k are never read.
   */
  predicate Terminates(stream: seq<Node>, decode: Decoder, k: nat) {
    && k < |stream|
    && (forall j | 0 <= j <= k :: Buildable(stream[j]))
    && IsSentinel(Build(stream[k], decode))
    && (forall j | 0 <= j < k :: !IsSentinel(Build(stream[j], decode)))
  }

  /** The token source eventually yields End or Error. */
  predicate HasStop(stream: seq<Node>, decode: Decoder) {
    exists k | 0 <= k < |stream| :: Terminates(stream, decode, k)
  }

  /** A stream stops at one position only. */
  lemma StopIsUnique(stream: seq<Node>, decode: Decoder, k1: nat, k2: nat)
    requires Terminates(stream, decode, k1) && Terminates(stream, decode, k2)
    ensures k1 == k2
  {
  }

  /** The position of the first node that builds to End or Error. */
  function StopIndex(stream: seq<Node>, decode: Decoder): (k: nat)
    requires HasStop(stream, decode)
    ensures Terminates(stream, decode, k)
    decreases |stream|
  {
    assert Buildable(stream[0]);
    if IsSentinel(Build(stream[0], decode)) then 0
    else
      StopAfterFirst(stream, decode);
      1 + StopIndex(stream[1..], decode)
  }

  /** A stream whose first node does not stop it still stops after that node. */
  lemma StopAfterFirst(stream: seq<Node>, decode: Decoder)
    requires HasStop(stream, decode)
    requires Buildable(stream[0]) && !IsSentinel(Build(stream[0], decode))
    ensures HasStop(stream[1..], decode)
  {
    var w :| 0 <= w < |stream| && Terminates(stream, decode, w);
    assert Terminates(stream[1..], decode, w - 1);
  }

  /**
    The outcome of the read loop, stated without the loop: on an Error the error
    alone, on End every value before it in stream order.
   */
  function ReadLoop(stream: seq<Node>, decode: Decoder): (r: seq<Value>)
    requires HasStop(stream, decode)
  {
    var k := StopIndex(stream, decode);
    var last := Build(stream[k], decode);
    if last.Error? then [last] else BuildItems(stream[..k], decode)
  }

  /** parse(at_path:), with opening the file reduced to whether it succeeded. */
  function ParseFile(canOpen: bool, stream: seq<Node>, decode: Decoder): (r: seq<Value>)
    requires canOpen ==> HasStop(stream, decode)
  {
    if canOpen then ReadLoop(stream, decode) else [Error(FileMissingMessage)]
  }

  /**
    What the read loop returns: on an Error the error alone; on End the values of
    all earlier nodes in stream order; so End never appears in the result, and
    Error only as the whole result.
   */
  lemma ReadLoopOutcome(stream: seq<Node>, decode: Decoder)
    requires HasStop(stream, decode)
    ensures var k := StopIndex(stream, decode);
            var r := ReadLoop(stream, decode);
            && (Build(stream[k], decode).Error? ==> r == [Build(stream[k], decode)])
            && (Build(stream[k], decode).End? ==>
                  |r| == k && forall j | 0 <= j < k :: r[j] == Build(stream[j], decode))
    ensures var r := ReadLoop(stream, decode);
            (|r| == 1 && r[0].Error?) || forall j | 0 <= j < |r| :: !IsSentinel(r[j])
  {
  }

  /**
    Fail-fast: an Error after any number of data nodes discards their values,
    and nothing after it is read.
   */
  lemma ErrorDiscardsEarlierValues(prefix: seq<Node>, e: Node, rest: seq<Node>, decode: Decoder)
    requires forall j | 0 <= j < |prefix| :: Buildable(prefix[j]) && !IsSentinel(Build(prefix[j], decode))
    requires Buildable(e) && Build(e, decode).Error?
    ensures HasStop(prefix + [e] + rest, decode)
    ensures ReadLoop(prefix + [e] + rest, decode) == [Build(e, decode)]
  {
    var stream := prefix + [e] + rest;
    assert Terminates(stream, decode, |prefix|);
    StopIsUnique(stream, decode, |prefix|, StopIndex(stream, decode));
  }

  /** End after data nodes returns their values, in order; End itself is left out. */
  lemma EndReturnsEarlierValues(prefix: seq<Node>, e: Node, rest: seq<Node>, decode: Decoder)
    requires forall j | 0 <= j < |prefix| :: Buildable(prefix[j]) && !IsSentinel(Build(prefix[j], decode))
    requires Buildable(e) && Build(e, decode).End?
    ensures HasStop(prefix + [e] + rest, decode)
    ensures ReadLoop(prefix + [e] + rest, decode) == BuildItems(prefix, decode)
  {
    var stream := prefix + [e] + rest;
    assert Terminates(stream, decode, |prefix|);
    StopIsUnique(stream, decode, |prefix|, StopIndex(stream, decode));
    assert stream[..|prefix|] == prefix;
  }

  /** The nodes after the one that stops the loop never influence the result. */
  lemma NodesAfterStopAreIgnored(stream: seq<Node>, rest: seq<Node>, decode: Decoder)
    requires HasStop(stream, decode)
    ensures var k := StopIndex(stream, decode);
            && HasStop(stream[..k + 1] + rest, decode)
            && ReadLoop(stream[..k + 1] + rest, decode) == ReadLoop(stream, decode)
  {
    var k := StopIndex(stream, decode);
    var prefix, e := stream[..k], stream[k];
    assert stream == prefix + [e] + stream[k + 1..];
    assert stream[..k + 1] + rest == prefix + [e] + rest;
    if Build(e, decode).Error? {
      ErrorDiscardsEarlierValues(prefix, e, rest, decode);
      ErrorDiscardsEarlierValues(prefix, e, stream[k + 1..], decode);
    } else {
      EndReturnsEarlierValues(prefix, e, rest, decode);
      EndReturnsEarlierValues(prefix, e, stream[k + 1..], decode);
    }
  }

  /**
    The loop step that meets End or Error: it is at the stopping position, and
    the values gathered so far, or the error alone, are the read outcome.
   */
  lemma SentinelEndsTheLoop(stream: seq<Node>, decode: Decoder, values: seq<Value>, i: nat)
    requires HasStop(stream, decode)
    requires i <= StopIndex(stream, decode)
    requires values == BuildItems(stream[..i], decode)
    requires IsSentinel(Build(stream[i], decode))
    ensures i == StopIndex(stream, decode)
    ensures Build(stream[i], decode).Error? ==> ReadLoop(stream, decode) == [Build(stream[i], decode)]
    ensures Build(stream[i], decode).End? ==> ReadLoop(stream, decode) == values
  {
    var k := StopIndex(stream, decode);
    assert Terminates(stream, decode, k);
    assert i == k;
  }

  /** Reading one more data node appends its value. */
  lemma BuildItemsAppend(stream: seq<Node>, decode: Decoder, i: nat)
    requires i < |stream|
    requires forall j | 0 <= j <= i :: Buildable(stream[j])
    ensures BuildItems(stream[..i + 1], decode) == BuildItems(stream[..i], decode) + [Build(stream[i], decode)]
  {
    assert stream[..i + 1][..i] == stream[..i];
  }

  /**
    parse(at_path:): a file that cannot be opened gives one error and nothing is
    read; otherwise the read loop runs and the file is closed once.
   */
  method Parse(canOpen: bool, stream: seq<Node>, decode: Decoder)
    returns (result: seq<Value>, ghost nodesRead: nat, ghost nodesFreed: nat, ghost closeCalls: nat)
    requires canOpen ==> HasStop(stream, decode)
    ensures result == ParseFile(canOpen, stream, decode)
    ensures !canOpen ==> nodesRead == 0 && closeCalls == 0
    ensures canOpen ==> nodesRead == StopIndex(stream, decode) + 1 && closeCalls == 1
    ensures nodesFreed == nodesRead
  {
    if !canOpen {
      return [Error(FileMissingMessage)], 0, 0, 0;
    }
    result, nodesRead, nodesFreed := ReadValues(stream, decode);
    closeCalls := 1;
  }

  /**
    The read loop as the source runs it: read a node, build it, free it, then
    return on Error, return on End, or append and go on.
   */
  method ReadValues(stream: seq<Node>, decode: Decoder)
    returns (result: seq<Value>, ghost nodesRead: nat, ghost nodesFreed: nat)
    requires HasStop(stream, decode)
    ensures result == ReadLoop(stream, decode)
    ensures nodesRead == StopIndex(stream, decode) + 1
    ensures nodesFreed == nodesRead
  {
    nodesRead, nodesFreed := 0, 0;
    ghost var k := StopIndex(stream, decode);
    var values: seq<Value> := [];
    var i := 0;
    while true
      invariant 0 <= i <= k
      invariant values == BuildItems(stream[..i], decode)
      invariant nodesRead == i && nodesFreed == i
      decreases k - i
    {
      var node := stream[i];
      nodesRead := nodesRead + 1;
      var o := Build(node, decode);
      if o.Error? {
        nodesFreed := nodesFreed + 1;
        SentinelEndsTheLoop(stream, decode, values, i);
        return [o], nodesRead, nodesFreed;
      } else if o.End? {
        nodesFreed := nodesFreed + 1;
        SentinelEndsTheLoop(stream, decode, values, i);
        return values, nodesRead, nodesFreed;
      }
      nodesFreed := nodesFreed + 1;
      BuildItemsAppend(stream, decode, i);
      values := values + [o];
      i := i + 1;
    }
  }
}
