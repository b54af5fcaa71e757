/** The set of open documents, and the rewriting of a second `didOpen` into a full-text
    `didChange` (src/documents.rs), proved against two model servers. */
module Documents {
  import opened Wrappers
  import opened Messages
  import opened Histories

  /** What is sent upstream instead of a `didOpen`, if not the original. */
  function Rewriting(uris: set<string>, item: Payload): Option<Message> {
    if item.Document? && item.uri in uris then
      Some(Notification(DidChange, Changes(item.uri, item.version, [FullText(item.text)])))
    else None
  }

  function AfterOpen(uris: set<string>, item: Payload): set<string> {
    if item.Document? then uris + {item.uri} else uris
  }

  function AfterClose(uris: set<string>, closed: Payload): set<string> {
    if closed.DocumentId? then uris - {closed.uri} else uris
  }

  class OpenDocuments {
    var uris: set<string>

    constructor ()
      ensures uris == {}
    {
      uris := {};
    }

    /** A body that cannot be read leaves the set alone and is sent as it is. */
    method OnDidOpen(item: Payload) returns (rewritten: Option<Message>)
      modifies this
      ensures rewritten == Rewriting(old(uris), item)
      ensures uris == AfterOpen(old(uris), item)
    {
      if !item.Document? {
        return None;
      }
      if item.uri !in uris {
        uris := uris + {item.uri};
        return None;
      }
      rewritten := Some(Notification(DidChange, Changes(item.uri, item.version, [FullText(item.text)])));
    }

    method OnDidClose(closed: Payload)
      modifies this
      ensures uris == AfterClose(old(uris), closed)
    {
      if closed.DocumentId? {
        uris := uris - {closed.uri};
      }
    }
  }

  // --- Two servers that keep text documents ---------------------------------------------

  datatype Buffer = Buffer(version: int, text: string)

  type Buffers = map<string, Buffer>

  function Min(a: nat, b: nat): nat { if a < b then a else b }

  /** Positions beyond the text are clamped to its end. */
  function Edited(text: string, edits: seq<Edit>): string
    decreases |edits|
  {
    if edits == [] then text
    else match edits[0]
      case FullText(whole) => Edited(whole, edits[1..])
      case Splice(from, to, inserted) =>
        var lo := Min(from, |text|);
        var hi := Min(to, |text|);
        Edited(text[..lo] + inserted + text[if lo < hi then hi else lo..], edits[1..])
  }

  /** A change of a document that is not open and a close of one are ignored by both servers. */
  function Keep(docs: Buffers, msg: Message): Buffers {
    if !msg.Notification? then docs
    else if msg.name == DidChange && msg.payload.Changes? && msg.payload.uri in docs then
      docs[msg.payload.uri := Buffer(msg.payload.version, Edited(docs[msg.payload.uri].text, msg.payload.edits))]
    else if msg.name == DidClose && msg.payload.DocumentId? then docs - {msg.payload.uri}
    else docs
  }

  predicate Opens(msg: Message) {
    msg.Notification? && msg.name == DidOpen && msg.payload.Document?
  }

  /** Where a second open of a document overwrites it. */
  function Lenient(docs: Buffers, msg: Message): Buffers {
    if Opens(msg) then docs[msg.payload.uri := Buffer(msg.payload.version, msg.payload.text)]
    else Keep(docs, msg)
  }

  /** Where a second open of a document is an error (LSP 3.17, section "DidOpenTextDocument
      Notification"). */
  function Strict(docs: Buffers, msg: Message): Option<Buffers> {
    if Opens(msg) && msg.payload.uri in docs then None else Some(Lenient(docs, msg))
  }

  function LenientAfter(stream: seq<Message>): Buffers {
    if stream == [] then map[] else Lenient(LenientAfter(stream[..|stream| - 1]), stream[|stream| - 1])
  }

  function StrictAfter(stream: seq<Message>): Option<Buffers> {
    if stream == [] then Some(map[])
    else match StrictAfter(stream[..|stream| - 1])
      case None => None
      case Some(docs) => Strict(docs, stream[|stream| - 1])
  }

  function OpenAfter(stream: seq<Message>): set<string> {
    if stream == [] then {}
    else Observed(OpenAfter(stream[..|stream| - 1]), stream[|stream| - 1])
  }

  function Observed(uris: set<string>, msg: Message): set<string> {
    if !msg.Notification? then uris
    else if msg.name == DidOpen then AfterOpen(uris, msg.payload)
    else if msg.name == DidClose then AfterClose(uris, msg.payload)
    else uris
  }

  function Forwarded(uris: set<string>, msg: Message): Message {
    if msg.Notification? && msg.name == DidOpen then Rewriting(uris, msg.payload).GetOr(msg) else msg
  }

  function RewrittenStream(stream: seq<Message>): (r: seq<Message>)
    ensures |r| == |stream|
  {
    if stream == [] then []
    else
      var rest := stream[..|stream| - 1];
      RewrittenStream(rest) + [Forwarded(OpenAfter(rest), stream[|stream| - 1])]
  }

  /** The strict server never refuses an open of the rewritten stream, and holds at every moment
      exactly the texts and versions that the lenient server has of the raw stream. The
      remembered uris are the documents open at the server. */
  lemma {:induction false} RewritingSimulatesReopening(stream: seq<Message>)
    ensures StrictAfter(RewrittenStream(stream)) == Some(LenientAfter(stream))
    ensures OpenAfter(stream) == LenientAfter(stream).Keys
  {
    if stream != [] {
      var rest, msg := stream[..|stream| - 1], stream[|stream| - 1];
      RewritingSimulatesReopening(rest);
      var sent := Forwarded(OpenAfter(rest), msg);
      var docs := LenientAfter(rest);
      assert RewrittenStream(stream)[..|stream| - 1] == RewrittenStream(rest);
      assert RewrittenStream(stream)[|stream| - 1] == sent;
      if Opens(msg) && msg.payload.uri in docs {
        var p := msg.payload;
        assert Edited(docs[p.uri].text, [FullText(p.text)]) == p.text by {
          assert [FullText(p.text)][1..] == [];
        }
      }
      assert Strict(docs, sent) == Some(Lenient(docs, msg));
    }
  }

  // --- The raw stream ---------------------------------------------------------------------

  function OpensUri(uri: string): (seq<Message>, Message) -> bool {
    (before: seq<Message>, msg: Message) => Opens(msg) && msg.payload.uri == uri
  }

  function ClosesUri(uri: string): (seq<Message>, Message) -> bool {
    (before: seq<Message>, msg: Message) => msg.Notification? && msg.name == DidClose && msg.payload.DocumentId? && msg.payload.uri == uri
  }

  /** The document was opened and not closed since. */
  ghost predicate IsOpen(stream: seq<Message>, uri: string) { Since(stream, OpensUri(uri), ClosesUri(uri)) }

  lemma {:induction false} OpenedAreKept(stream: seq<Message>, uri: string)
    ensures uri in LenientAfter(stream) <==> IsOpen(stream, uri)
  {
    if stream != [] {
      var rest, msg := stream[..|stream| - 1], stream[|stream| - 1];
      OpenedAreKept(rest, uri);
      SplitLast(stream);
      SinceStep(rest, msg, OpensUri(uri), ClosesUri(uri));
      KeptAfter(LenientAfter(rest), msg, uri);
    }
  }

  lemma KeptAfter(docs: Buffers, msg: Message, uri: string)
    ensures uri in Lenient(docs, msg) <==>
      || (Opens(msg) && msg.payload.uri == uri)
      || (uri in docs && !(msg.Notification? && msg.name == DidClose && msg.payload.DocumentId? && msg.payload.uri == uri))
  {}

  ghost predicate OpensNoOpen(stream: seq<Message>) {
    forall k | 0 <= k < |stream| && Opens(stream[k]) :: !IsOpen(stream[..k], stream[k].payload.uri)
  }

  /** Without the rewriting, the strict server takes a stream exactly when no document is opened that
      was opened before and not closed since; then it holds what the lenient server holds. */
  lemma {:induction false} RawIsTakenExactly(stream: seq<Message>)
    ensures StrictAfter(stream).Some? <==> OpensNoOpen(stream)
    ensures StrictAfter(stream).Some? ==> StrictAfter(stream).value == LenientAfter(stream)
  {
    if stream != [] {
      var n := |stream| - 1;
      var rest, msg := stream[..n], stream[n];
      RawIsTakenExactly(rest);
      assert OpensNoOpen(stream) <==> OpensNoOpen(rest) && (Opens(msg) ==> !IsOpen(rest, msg.payload.uri)) by {
        assert forall k | 0 <= k < n :: rest[..k] == stream[..k] && rest[k] == stream[k];
      }
      if Opens(msg) {
        OpenedAreKept(rest, msg.payload.uri);
      }
    }
  }
}
