/**
 Editing the iXML chunk of a RIFF file in place. The container is chapter 2 (RIFF) of Multimedia Programming Interface
 and Data Specifications 1.0: a four-character form type and a list of chunks, each padded to an even length.
 */
module RiffChunks {
  import opened Wrappers
  import opened Bytes
  import opened Sequences

  const RIFF: bytes := [0x52, 0x49, 0x46, 0x46]
  const IXML: bytes := [0x69, 0x58, 0x4D, 0x4C]

  // ----- Well-formed files -----

  datatype Chunk = Chunk(id: bytes, data: bytes, pad: bytes)
  {
    predicate Valid() {
      |id| == 4 && |pad| == |data| % 2 && |data| < WORD_LIMIT
    }
  }

  function Encoded(c: Chunk): bytes {
    c.id + (Word(|c.data|) + (c.data + c.pad))
  }

  function Body(chunks: seq<Chunk>): bytes {
    if chunks == [] then [] else Encoded(chunks[0]) + Body(chunks[1..])
  }

  predicate AllValid(chunks: seq<Chunk>) {
    chunks == [] || (chunks[0].Valid() && AllValid(chunks[1..]))
  }

  /** Eight bytes of header, the form type, and the chunks. */
  function Container(magic: bytes, size: bytes, form: bytes, chunks: seq<Chunk>): bytes {
    magic + (size + (form + Body(chunks)))
  }

  /** The container with the size it should have. */
  function Sized(magic: bytes, form: bytes, chunks: seq<Chunk>): bytes {
    Container(magic, Word(4 + |Body(chunks)|), form, chunks)
  }

  // ----- Scanning -----

  /** Where the first iXML chunk begins in what is left of a file, if the scan gets to one. */
  function Scan(rest: bytes): (offset: Option<nat>)
    ensures offset.Some? ==> offset.value + 8 <= |rest|
  {
    if |rest| < 8 then None
    else if rest[..4] == IXML then Some(0)
    else
      var size := FirstWord(rest[4..]);
      var skip := 8 + size + size % 2;
      if skip > |rest| then None
      else
        var later := Scan(rest[skip..]);
        if later.None? then None else Some(skip + later.value)
  }

  function Shifted(offset: Option<nat>, shift: nat): Option<nat> {
    if offset.None? then None else Some(offset.value + shift)
  }

  function FindIxml(file: bytes): (offset: Option<nat>)
    ensures offset.Some? ==> 12 <= offset.value && offset.value + 8 <= |file|
  {
    if |file| < 12 then None else Shifted(Scan(file[12..]), 12)
  }

  /** The data of the chunk that bytes begin with, cut short if they are. */
  function DocumentAt(rest: bytes): bytes
    requires |rest| >= 8
  {
    var size := FirstWord(rest[4..]);
    if size <= |rest[8..]| then rest[8..][..size] else rest[8..]
  }

  function ReadIxml(file: bytes): Option<bytes> {
    if |file| < 4 || file[..4] != RIFF || FindIxml(file).None? then None
    else Some(DocumentAt(file[FindIxml(file).value..]))
  }

  // ----- Writing -----

  function IxmlChunk(document: bytes): Chunk {
    Chunk(IXML, document, if |document| % 2 == 1 then [0] else [])
  }

  function Patched(file: bytes, size: bytes): bytes
    requires |file| >= 8 && |size| == 4
  {
    file[..4] + size + file[8..]
  }

  // What is left in the file, whether or not the edit succeeds.
  datatype Edit = Done(file: bytes) | Failed(file: bytes)

  /** A document too long for its size field changes nothing; a file that becomes too long keeps its old size field. */
  function Appended(file: bytes, document: bytes): Edit {
    if |document| >= WORD_LIMIT then Failed(file)
    else
      var longer := file + Encoded(IxmlChunk(document));
      if |longer| - 8 >= WORD_LIMIT then Failed(longer) else Done(Patched(longer, Word(|longer| - 8)))
  }

  function Truncated(file: bytes): bytes {
    if FindIxml(file).Some? then file[..FindIxml(file).value] else file
  }

  function Replaced(file: bytes, document: bytes): Edit {
    Appended(Truncated(file), document)
  }

  // ----- What the scan makes of a chunk list -----

  lemma ChunkThen(c: Chunk, rest: bytes)
    requires c.Valid()
    ensures var file := Encoded(c) + rest;
            var skip := 8 + |c.data| + |c.data| % 2;
            && |file| >= skip && |Encoded(c)| == skip && file[..4] == c.id && FirstWord(file[4..]) == |c.data|
            && file[8..] == c.data + c.pad + rest && file[skip..] == rest
  {
    var others := c.data + c.pad + rest;
    assert Encoded(c) + rest == c.id + (Word(|c.data|) + others);
    WordIsReadBack(|c.data|, others);
    assert (Encoded(c) + rest)[4..] == Word(|c.data|) + others;
    assert (Encoded(c) + rest)[8..] == (Word(|c.data|) + others)[4..];
  }

  predicate NoIxml(chunks: seq<Chunk>) {
    chunks == [] || (chunks[0].Valid() && chunks[0].id != IXML && NoIxml(chunks[1..]))
  }

  lemma ChunkIsSkipped(file: bytes, c: Chunk, rest: bytes)
    requires c.Valid() && c.id != IXML && file == Encoded(c) + rest
    ensures Scan(file) == Shifted(Scan(rest), |Encoded(c)|)
  {
    ChunkThen(c, rest);
  }

  lemma OneMoreIsPassed(file: bytes, c: Chunk, body: bytes, rest: bytes)
    requires c.Valid() && c.id != IXML && file == Encoded(c) + body + rest
    requires Scan(body + rest) == Shifted(Scan(rest), |body|)
    ensures Scan(file) == Shifted(Scan(rest), |Encoded(c) + body|)
  {
    var others := body + rest;
    assert file == Encoded(c) + others by {
      Regrouped(Encoded(c), body, rest);
    }
    ChunkIsSkipped(file, c, others);
  }

  lemma {:induction false} ScanPasses(chunks: seq<Chunk>, rest: bytes)
    requires NoIxml(chunks)
    ensures Scan(Body(chunks) + rest) == Shifted(Scan(rest), |Body(chunks)|)
  {
    if chunks == [] {
      assert Body(chunks) + rest == rest;
    } else {
      ScanPasses(chunks[1..], rest);
      OneMoreIsPassed(Body(chunks) + rest, chunks[0], Body(chunks[1..]), rest);
    }
  }

  /** The chunks in front of the first iXML chunk, and the rest. */
  function Earlier(chunks: seq<Chunk>): (earlier: seq<Chunk>) {
    if chunks == [] || chunks[0].id == IXML then [] else [chunks[0]] + Earlier(chunks[1..])
  }

  function Later(chunks: seq<Chunk>): (later: seq<Chunk>)
    ensures Earlier(chunks) + later == chunks
    ensures later != [] ==> later[0].id == IXML
  {
    if chunks == [] || chunks[0].id == IXML then chunks
    else
      var later := Later(chunks[1..]);
      Regrouped([chunks[0]], Earlier(chunks[1..]), later);
      later
  }

  lemma {:induction false} PartsAreValid(chunks: seq<Chunk>)
    requires AllValid(chunks)
    ensures NoIxml(Earlier(chunks)) && AllValid(Earlier(chunks)) && AllValid(Later(chunks))
  {
    if chunks != [] && chunks[0].id != IXML {
      PartsAreValid(chunks[1..]);
    }
  }

  lemma {:induction false} BodyAppend(a: seq<Chunk>, b: seq<Chunk>)
    ensures Body(a + b) == Body(a) + Body(b)
  {
    if a == [] {
      assert a + b == b;
    } else {
      BodyAppend(a[1..], b);
      assert (a + b)[1..] == a[1..] + b;
      Regrouped(Encoded(a[0]), Body(a[1..]), Body(b));
    }
  }

  lemma EncodedIsEven(c: Chunk)
    requires c.Valid()
    ensures |Encoded(c)| % 2 == 0
  {
    LengthOfEncoded(c);
    EvenWithPad(|c.data|);
  }

  lemma LengthOfEncoded(c: Chunk)
    requires |c.id| == 4
    ensures |Encoded(c)| == 8 + (|c.data| + |c.pad|)
  {
  }

  lemma EvenWithPad(n: nat)
    ensures (8 + (n + n % 2)) % 2 == 0
  {
  }

  lemma EvenSum(a: bytes, b: bytes)
    requires |a| % 2 == 0 && |b| % 2 == 0
    ensures |a + b| % 2 == 0
  {
  }

  lemma {:induction false} BodyIsEven(chunks: seq<Chunk>)
    requires AllValid(chunks)
    ensures |Body(chunks)| % 2 == 0
  {
    if chunks != [] {
      BodyIsEven(chunks[1..]);
      EncodedIsEven(chunks[0]);
      EvenSum(Encoded(chunks[0]), Body(chunks[1..]));
    }
  }

  lemma ContainerBegins(magic: bytes, size: bytes, form: bytes, body: bytes)
    requires |magic| == |size| == |form| == 4
    ensures var file := magic + (size + (form + body));
            && |file| == 12 + |body| && file[..4] == magic && file[4..8] == size && file[8..] == form + body
            && file[12..] == body
  {
  }

  lemma FoundInBody(chunks: seq<Chunk>)
    requires AllValid(chunks)
    ensures Scan(Body(chunks)) == if Later(chunks) == [] then None else Some(|Body(Earlier(chunks))|)
  {
    var earlier, later := Earlier(chunks), Later(chunks);
    PartsAreValid(chunks);
    FoundFirst(later);
    FoundAfter(earlier, later);
    assert earlier + later == chunks;
  }

  lemma FoundAfter(earlier: seq<Chunk>, later: seq<Chunk>)
    requires NoIxml(earlier)
    ensures Scan(Body(earlier + later)) == Shifted(Scan(Body(later)), |Body(earlier)|)
  {
    BodyAppend(earlier, later);
    ScanPasses(earlier, Body(later));
  }

  lemma FoundFirst(later: seq<Chunk>)
    requires AllValid(later) && (later != [] ==> later[0].id == IXML)
    ensures Scan(Body(later)) == if later == [] then None else Some(0)
  {
    if later != [] {
      FirstIsFound(later[0], Body(later[1..]));
    }
  }

  lemma FirstIsFound(c: Chunk, rest: bytes)
    requires c.Valid() && c.id == IXML
    ensures Scan(Encoded(c) + rest) == Some(0)
  {
    ChunkThen(c, rest);
  }

  lemma FoundInContainer(magic: bytes, size: bytes, form: bytes, chunks: seq<Chunk>)
    requires |magic| == |size| == |form| == 4 && AllValid(chunks)
    ensures FindIxml(Container(magic, size, form, chunks))
            == if Later(chunks) == [] then None else Some(12 + |Body(Earlier(chunks))|)
  {
    var body := Body(chunks);
    ContainerBegins(magic, size, form, body);
    FoundAfterHeader(magic + (size + (form + body)), body);
    FoundInBody(chunks);
  }

  lemma FoundAfterHeader(file: bytes, body: bytes)
    requires |file| >= 12 && file[12..] == body
    ensures FindIxml(file) == Shifted(Scan(body), 12)
  {
  }

  lemma ContainerSplits(magic: bytes, size: bytes, form: bytes, a: seq<Chunk>, b: seq<Chunk>)
    ensures Container(magic, size, form, a + b) == Container(magic, size, form, a) + Body(b)
  {
    BodyAppend(a, b);
    Regrouped(form, Body(a), Body(b));
    Regrouped(size, form + Body(a), Body(b));
    Regrouped(magic, size + (form + Body(a)), Body(b));
  }

  lemma TruncatedContainer(magic: bytes, size: bytes, form: bytes, chunks: seq<Chunk>)
    requires |magic| == |size| == |form| == 4 && AllValid(chunks)
    ensures Truncated(Container(magic, size, form, chunks)) == Container(magic, size, form, Earlier(chunks))
  {
    FoundInContainer(magic, size, form, chunks);
    ContainerBegins(magic, size, form, Body(Earlier(chunks)));
    ContainerSplits(magic, size, form, Earlier(chunks), Later(chunks));
    CutOfConcat(Container(magic, size, form, Earlier(chunks)), Body(Later(chunks)));
  }

  lemma CutOfConcat(a: bytes, b: bytes)
    ensures (a + b)[..|a|] == a && (a + b)[|a|..] == b
  {
  }

  lemma AppendedToContainer(magic: bytes, size: bytes, form: bytes, chunks: seq<Chunk>, document: bytes)
    requires |magic| == |size| == |form| == 4 && |document| < WORD_LIMIT
    ensures Appended(Container(magic, size, form, chunks), document)
            == Expected(magic, size, form, chunks + [IxmlChunk(document)])
  {
    var chunk := IxmlChunk(document);
    var all := chunks + [chunk];
    BodyOfOne(chunk);
    ContainerSplits(magic, size, form, chunks, [chunk]);
    var longer := Container(magic, size, form, all);
    assert longer == Container(magic, size, form, chunks) + Encoded(chunk);
    SizedByPatching(magic, size, form, all, longer);
  }

  lemma SizedByPatching(magic: bytes, size: bytes, form: bytes, chunks: seq<Chunk>, file: bytes)
    requires |magic| == |size| == |form| == 4 && file == Container(magic, size, form, chunks)
    ensures |file| - 8 == 4 + |Body(chunks)|
    ensures Patched(file, Word(|file| - 8)) == Sized(magic, form, chunks)
  {
    ContainerBegins(magic, size, form, Body(chunks));
    PatchedContainer(magic, size, form, Body(chunks), Word(4 + |Body(chunks)|));
  }

  lemma BodyOfOne(chunk: Chunk)
    ensures Body([chunk]) == Encoded(chunk)
  {
    assert [chunk][1..] == [];
  }

  lemma PatchedContainer(magic: bytes, size: bytes, form: bytes, body: bytes, patch: bytes)
    requires |magic| == |size| == |form| == |patch| == 4
    ensures Patched(magic + (size + (form + body)), patch) == magic + (patch + (form + body))
  {
    ContainerBegins(magic, size, form, body);
  }

  /** The container with the right size, unless that cannot be written. */
  function Expected(magic: bytes, size: bytes, form: bytes, chunks: seq<Chunk>): Edit {
    if 4 + |Body(chunks)| < WORD_LIMIT then Done(Sized(magic, form, chunks))
    else Failed(Container(magic, size, form, chunks))
  }

  /**
   What replacing does to any container: it keeps the chunks in front of the first iXML chunk byte for byte, drops all
   that follow, and puts the document last; and the size is right unless it cannot be written.
   */
  lemma ReplaceExactly(magic: bytes, size: bytes, form: bytes, chunks: seq<Chunk>, document: bytes)
    requires |magic| == |size| == |form| == 4 && AllValid(chunks) && |document| < WORD_LIMIT
    ensures Replaced(Container(magic, size, form, chunks), document)
            == Expected(magic, size, form, Earlier(chunks) + [IxmlChunk(document)])
  {
    TruncatedContainer(magic, size, form, chunks);
    AppendedToContainer(magic, size, form, Earlier(chunks), document);
  }

  function Others(chunks: seq<Chunk>): seq<Chunk> {
    if chunks == [] then [] else (if chunks[0].id == IXML then [] else [chunks[0]]) + Others(chunks[1..])
  }

  /** So every other chunk is kept exactly when none follows the first iXML chunk. */
  lemma {:induction false} NothingElseIsLost(chunks: seq<Chunk>)
    ensures Earlier(chunks) == Others(chunks) <==> Others(Later(chunks)) == []
  {
    if chunks != [] && chunks[0].id != IXML {
      NothingElseIsLost(chunks[1..]);
      assert Earlier(chunks)[1..] == Earlier(chunks[1..]) && Others(chunks)[1..] == Others(chunks[1..]);
    }
  }

  /** After an edit the size field is right, the length is even, and the document is the one that was written. */
  lemma ReplacedReadsBack(size: bytes, form: bytes, chunks: seq<Chunk>, document: bytes)
    requires |size| == |form| == 4 && AllValid(chunks) && |document| < WORD_LIMIT
    ensures var edit := Replaced(Container(RIFF, size, form, chunks), document);
            edit.Done? ==> IsRight(edit.file) && ReadIxml(edit.file) == Some(document)
  {
    var all := Earlier(chunks) + [IxmlChunk(document)];
    var edit := Replaced(Container(RIFF, size, form, chunks), document);
    assert edit == Expected(RIFF, size, form, all) by {
      ReplaceExactly(RIFF, size, form, chunks, document);
    }
    if edit.Done? {
      PartsAreValid(chunks);
      SizedIsRight(RIFF, form, Earlier(chunks), document);
      LastIsRead(Word(4 + |Body(all)|), form, Earlier(chunks), document);
    }
  }

  /** A size field that tells the rest of the file's length, which is even. */
  predicate IsRight(file: bytes) {
    |file| >= 8 && |file| % 2 == 0 && file[4..8] == Word(|file| - 8)
  }

  lemma SizedIsRight(magic: bytes, form: bytes, earlier: seq<Chunk>, document: bytes)
    requires |magic| == |form| == 4 && AllValid(earlier) && |document| < WORD_LIMIT
    ensures var file := Sized(magic, form, earlier + [IxmlChunk(document)]);
            IsRight(file)
  {
    var all := earlier + [IxmlChunk(document)];
    AllStayValid(earlier, IxmlChunk(document));
    BodyIsEven(all);
    RightSize(magic, form, Body(all));
  }

  lemma RightSize(magic: bytes, form: bytes, body: bytes)
    requires |magic| == |form| == 4 && |body| % 2 == 0
    ensures var file := magic + (Word(4 + |body|) + (form + body));
            IsRight(file)
  {
    var size := Word(4 + |body|);
    var file := magic + (size + (form + body));
    ContainerBegins(magic, size, form, body);
    assert |file| - 8 == 4 + |body|;
    EvenSum(magic + (size + form), body);
    SameWord(|file| - 8, 4 + |body|);
  }

  lemma SameWord(m: nat, n: nat)
    requires m == n
    ensures Word(m) == Word(n)
  {
  }

  lemma {:induction false} AllStayValid(chunks: seq<Chunk>, chunk: Chunk)
    requires AllValid(chunks) && chunk.Valid()
    ensures AllValid(chunks + [chunk])
  {
    if chunks != [] {
      AllStayValid(chunks[1..], chunk);
      assert (chunks + [chunk])[1..] == chunks[1..] + [chunk];
    }
  }

  lemma {:induction false} EarlierIsAll(earlier: seq<Chunk>, chunk: Chunk)
    requires NoIxml(earlier) && chunk.id == IXML
    ensures Earlier(earlier + [chunk]) == earlier && Later(earlier + [chunk]) == [chunk]
  {
    if earlier != [] {
      EarlierIsAll(earlier[1..], chunk);
      assert (earlier + [chunk])[1..] == earlier[1..] + [chunk];
    }
  }

  lemma LastIsRead(size: bytes, form: bytes, earlier: seq<Chunk>, document: bytes)
    requires |size| == |form| == 4 && |document| < WORD_LIMIT && NoIxml(earlier) && AllValid(earlier)
    ensures ReadIxml(Container(RIFF, size, form, earlier + [IxmlChunk(document)])) == Some(document)
  {
    var chunk := IxmlChunk(document);
    var all := earlier + [chunk];
    AllStayValid(earlier, chunk);
    EarlierIsAll(earlier, chunk);
    FoundInContainer(RIFF, size, form, all);
    ContainerBegins(RIFF, size, form, Body(all));
    ContainerBegins(RIFF, size, form, Body(earlier));
    ContainerSplits(RIFF, size, form, earlier, [chunk]);
    BodyOfOne(chunk);
    CutOfConcat(Container(RIFF, size, form, earlier), Encoded(chunk));
    DocumentIsRead(document);
  }

  lemma DocumentIsRead(document: bytes)
    requires |document| < WORD_LIMIT
    ensures |Encoded(IxmlChunk(document))| >= 8 && DocumentAt(Encoded(IxmlChunk(document))) == document
  {
    var chunk := IxmlChunk(document);
    ChunkThen(chunk, []);
    assert Encoded(chunk) + [] == Encoded(chunk);
    assert (document + chunk.pad)[..|document|] == document;
  }

  /** A document too long for its size field is not written, but what it was to replace is gone. */
  lemma TooLongLosesTheRest(magic: bytes, size: bytes, form: bytes, chunks: seq<Chunk>, document: bytes)
    requires |magic| == |size| == |form| == 4 && AllValid(chunks) && |document| >= WORD_LIMIT
    ensures Replaced(Container(magic, size, form, chunks), document)
            == Failed(Container(magic, size, form, Earlier(chunks)))
  {
    TruncatedContainer(magic, size, form, chunks);
  }

  /**
   Reading a RIFF file returns the data of the first iXML chunk behind any others: as much as its size field says, or as
   much as there is.
   */
  lemma ReadExactly(size: bytes, form: bytes, earlier: seq<Chunk>, n: nat, data: bytes)
    requires |size| == |form| == 4 && NoIxml(earlier) && n < WORD_LIMIT
    ensures ReadIxml(RIFF + (size + (form + (Body(earlier) + (IXML + (Word(n) + data))))))
            == Some(if n <= |data| then data[..n] else data)
  {
    var rest := IXML + (Word(n) + data);
    var body := Body(earlier) + rest;
    var file := RIFF + (size + (form + body));
    IxmlBegins(n, data);
    ScanPasses(earlier, rest);
    ContainerBegins(RIFF, size, form, body);
    FoundAfterHeader(file, body);
    TailOfTail(file, body, Body(earlier), rest);
  }

  lemma IxmlBegins(n: nat, data: bytes)
    requires n < WORD_LIMIT
    ensures var rest := IXML + (Word(n) + data);
            && |rest| >= 8 && Scan(rest) == Some(0)
            && DocumentAt(rest) == if n <= |data| then data[..n] else data
  {
    var rest := IXML + (Word(n) + data);
    WordIsReadBack(n, data);
    assert rest[..4] == IXML && rest[4..] == Word(n) + data;
    assert rest[8..] == (Word(n) + data)[4..] == data;
  }

  lemma TailOfTail(file: bytes, body: bytes, earlier: bytes, rest: bytes)
    requires |file| >= 12 && file[12..] == body && body == earlier + rest
    ensures file[12 + |earlier|..] == rest
  {
    assert body[|earlier|..] == rest;
  }

  /** It returns nothing of a file that begins otherwise, or in whose chunks there is no iXML. */
  lemma NothingToRead(magic: bytes, size: bytes, form: bytes, chunks: seq<Chunk>)
    requires |magic| == |size| == |form| == 4 && AllValid(chunks)
    requires magic != RIFF || forall c | c in chunks :: c.id != IXML
    ensures ReadIxml(Container(magic, size, form, chunks)) == None
  {
    ContainerBegins(magic, size, form, Body(chunks));
    FoundInContainer(magic, size, form, chunks);
    assert Later(chunks) != [] ==> Later(chunks)[0] in Earlier(chunks) + Later(chunks);
  }

  /** Replacing twice is replacing once with the second document. */
  lemma SecondReplaceWins(magic: bytes, size: bytes, form: bytes, chunks: seq<Chunk>, first: bytes, second: bytes)
    requires |magic| == |size| == |form| == 4 && AllValid(chunks)
    requires |first| < WORD_LIMIT && |second| < WORD_LIMIT
    ensures var file := Container(magic, size, form, chunks);
            Replaced(file, first).Done? && Replaced(file, second).Done? ==>
              Replaced(Replaced(file, first).file, second) == Replaced(file, second)
  {
    ReplaceExactly(magic, size, form, chunks, first);
    ReplaceExactly(magic, size, form, chunks, second);
    var all := Earlier(chunks) + [IxmlChunk(first)];
    PartsAreValid(chunks);
    ReplaceLast(magic, Word(4 + |Body(all)|), form, Earlier(chunks), IxmlChunk(first), second);
  }

  lemma ReplaceLast(magic: bytes, size: bytes, form: bytes, earlier: seq<Chunk>, last: Chunk, document: bytes)
    requires |magic| == |size| == |form| == 4 && NoIxml(earlier) && AllValid(earlier) && |document| < WORD_LIMIT
    requires last.Valid() && last.id == IXML
    ensures Replaced(Container(magic, size, form, earlier + [last]), document)
            == Expected(magic, size, form, earlier + [IxmlChunk(document)])
  {
    AllStayValid(earlier, last);
    EarlierIsAll(earlier, last);
    assert Earlier(earlier + [last]) == earlier;
    ReplaceExactly(magic, size, form, earlier + [last], document);
  }

  // ----- The functions, on a file that is read, cut and written in place -----

  lemma ScanSkips(file: bytes, position: nat, skip: nat)
    requires position + 8 <= |file| && file[position..][..4] != IXML
    requires var size := FirstWord(file[position..][4..]); skip == 8 + size + size % 2
    requires position + skip <= |file|
    ensures Shifted(Scan(file[position..]), position) == Shifted(Scan(file[position + skip..]), position + skip)
  {
    assert file[position..][skip..] == file[position + skip..];
  }

  class RiffFile {
    var content: bytes

    constructor (content: bytes)
      ensures this.content == content
    {
      this.content := content;
    }

    method Find() returns (offset: Option<nat>)
      ensures offset == FindIxml(content)
    {
      var position := 12;
      if |content| < 12 {
        return None;
      }
      while position + 8 <= |content|
        invariant 12 <= position <= |content|
        invariant FindIxml(content) == Shifted(Scan(content[position..]), position)
        decreases |content| - position
      {
        var header := content[position..];
        if header[..4] == IXML {
          return Some(position);
        }
        var size := FirstWord(header[4..]);
        var skip := 8 + size + size % 2;
        if skip > |header| {
          return None;
        }
        ScanSkips(content, position, skip);
        position := position + skip;
      }
      return None;
    }

    method Read() returns (document: Option<bytes>)
      ensures document == ReadIxml(content)
    {
      if |content| < 4 || content[..4] != RIFF {
        return None;
      }
      var offset := Find();
      if offset.None? {
        return None;
      }
      return Some(DocumentAt(content[offset.value..]));
    }

    method Append(document: bytes) returns (ok: bool)
      modifies this
      ensures Appended(old(content), document) == if ok then Done(content) else Failed(content)
    {
      if |document| >= WORD_LIMIT {
        return false;
      }
      var chunk := IXML + (Word(|document|) + document);
      if |document| % 2 == 1 {
        chunk := chunk + [0];
      }
      assert chunk == Encoded(IxmlChunk(document));
      content := content + chunk;
      if |content| - 8 >= WORD_LIMIT {
        return false;
      }
      content := content[..4] + Word(|content| - 8) + content[8..];
      ok := true;
    }

    method Replace(document: bytes) returns (ok: bool)
      modifies this
      ensures Replaced(old(content), document) == if ok then Done(content) else Failed(content)
    {
      var offset := Find();
      if offset.Some? {
        content := content[..offset.value];
      }
      ok := Append(document);
    }
  }
}
