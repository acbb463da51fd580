/**
 * Naming a conversation of any length (crates/installation/src/chat_titles.rs): it is packed into chunks of
 * bounded size, each chunk is summarised, and the summaries are packed again until one chunk is left.
 */
module Titles {
  import opened Common
  import Utf8
  import opened Packer

  const CONTEXT_BYTES: nat := 64_000
  const SUMMARY_BYTES: nat := 8_000

  /** The longest text or list a 64-bit machine can hold. */
  const MAX_LENGTH: nat := 0x7FFF_FFFF_FFFF_FFFF

  datatype Role = User | Assistant | Summary
  datatype Message = Message(role: Role, text: Bytes)
  datatype Entry = Entry(role: Role, message: nat, part: nat, text: Bytes)

  ghost predicate ValidMessages(messages: seq<Message>) {
    && |messages| <= MAX_LENGTH
    && forall i :: 0 <= i < |messages| ==> Utf8.Valid(messages[i].text) && |messages[i].text| <= MAX_LENGTH
  }

  // ----- Sizes on the wire -----

  function Digits(n: nat): nat {
    if n < 10 then 1 else 1 + Digits(n / 10)
  }

  /** A byte inside a JSON string (section 7 of RFC 8259): quotes, backslashes and controls are escaped. */
  function EscapedByte(b: byte): (n: nat)
    ensures 1 <= n <= 6
    ensures b >= 0x20 || b == 9 || b == 10 ==> n <= 2
  {
    if b == 0x22 || b == 0x5C || b == 8 || b == 9 || b == 10 || b == 12 || b == 13 then 2
    else if b < 0x20 then 6
    else 1
  }

  function Escaped(text: Bytes): nat {
    if text == [] then 0 else Escaped(text[..|text| - 1]) + EscapedByte(text[|text| - 1])
  }

  function RoleName(role: Role): string {
    match role
    case User => "user"
    case Assistant => "assistant"
    case Summary => "summary"
  }

  /** The length of an entry serialised as a JSON object. */
  function EntrySize(e: Entry): nat {
    |"{\"role\":\""| + |RoleName(e.role)| + |"\",\"message\":"| + Digits(e.message) + |",\"part\":"| + Digits(e.part)
    + |",\"text\":\""| + Escaped(e.text) + |"\"}"|
  }

  /** The length of a chunk serialised as a JSON array: commas go between entries only. */
  function ChunkSize(chunk: seq<Entry>): nat {
    2 + Sizes(chunk, EntrySize) + if chunk == [] then 0 else |chunk| - 1
  }

  // ----- Cutting a message into parts -----

  /** The last boundary at or before `end`. */
  function Back(text: Bytes, end: nat): (e: nat)
    requires end <= |text|
    ensures e <= end && Utf8.Boundary(text, e)
    ensures forall i :: e < i <= end ==> !Utf8.Boundary(text, i)
  {
    if Utf8.Boundary(text, end) then end else Back(text, end - 1)
  }

  function Least(a: nat, b: nat): nat { if a < b then a else b }

  function CutPoint(text: Bytes): nat {
    Back(text, Least(|text|, SUMMARY_BYTES))
  }

  /** The cut takes something off, close to the limit unless it takes everything. */
  lemma {:induction false} CutTakesSomething(text: Bytes)
    requires Utf8.Valid(text) && text != []
    ensures 0 < CutPoint(text) <= SUMMARY_BYTES && CutPoint(text) <= |text|
    ensures CutPoint(text) < |text| ==> CutPoint(text) > SUMMARY_BYTES - 4
    ensures Utf8.Valid(text[..CutPoint(text)]) && Utf8.Valid(text[CutPoint(text)..])
  {
    var end := Least(|text|, SUMMARY_BYTES);
    var b := Utf8.BoundaryNearby(text, end);
    assert b <= CutPoint(text);
    if |text| <= SUMMARY_BYTES { assert Utf8.Boundary(text, end); }
    Utf8.CutIsValid(text, CutPoint(text));
  }

  ghost function Parts(text: Bytes): seq<Bytes>
    decreases |text|
  {
    var e := CutPoint(text);
    if e == 0 || e == |text| then [text] else [text[..e]] + Parts(text[e..])
  }

  /** The entries of a message's first n parts. */
  ghost function PartEntries(role: Role, message: nat, parts: seq<Bytes>, n: nat): (entries: seq<Entry>)
    requires n <= |parts|
    ensures |entries| == n
    ensures forall k :: 0 <= k < n ==> entries[k] == Entry(role, message, k, parts[k])
  {
    if n == 0 then [] else PartEntries(role, message, parts, n - 1) + [Entry(role, message, n - 1, parts[n - 1])]
  }

  ghost function MessageEntries(messages: seq<Message>, i: nat): seq<Entry>
    requires i < |messages|
  {
    var parts := Parts(messages[i].text);
    PartEntries(messages[i].role, i, parts, |parts|)
  }

  /** The entries of the first n messages, message by message. */
  ghost function Pieces(messages: seq<Message>, n: nat): (pieces: seq<seq<Entry>>)
    requires n <= |messages|
    ensures |pieces| == n && forall k :: 0 <= k < n ==> pieces[k] == MessageEntries(messages, k)
  {
    if n == 0 then [] else Pieces(messages, n - 1) + [MessageEntries(messages, n - 1)]
  }

  ghost function Entries(messages: seq<Message>, n: nat): seq<Entry>
    requires n <= |messages|
  {
    Flatten(Pieces(messages, n))
  }

  lemma {:induction false} EntriesNext(messages: seq<Message>, n: nat)
    requires n < |messages|
    ensures Entries(messages, n + 1) == Entries(messages, n) + MessageEntries(messages, n)
  {
    FlattenSnoc(Pieces(messages, n), MessageEntries(messages, n));
  }

  // ----- Nothing is lost -----

  /** What a list of entries says of one message: the texts of its entries, in order. */
  ghost function TextOf(entries: seq<Entry>, message: nat): Bytes {
    if entries == [] then []
    else
      var n := |entries| - 1;
      TextOf(entries[..n], message) + if entries[n].message == message then entries[n].text else []
  }

  lemma {:induction false} TextOfAppend(a: seq<Entry>, b: seq<Entry>, message: nat)
    ensures TextOf(a + b, message) == TextOf(a, message) + TextOf(b, message)
    decreases |b|
  {
    if b == [] {
      assert a + b == a;
    } else {
      var n := |b| - 1;
      assert (a + b)[..|a + b| - 1] == a + b[..n];
      TextOfAppend(a, b[..n], message);
    }
  }

  lemma {:induction false} FlattenCons<T>(part: seq<T>, parts: seq<seq<T>>)
    ensures Flatten([part] + parts) == part + Flatten(parts)
    decreases |parts|
  {
    if parts == [] {
      assert [part] + parts == [part] && [part][..0] == [];
    } else {
      var n := |parts| - 1;
      assert ([part] + parts)[..|parts|] == [part] + parts[..n];
      FlattenCons(part, parts[..n]);
    }
  }

  /** A part of a message: valid text within the limit, and empty only if it is all there is. */
  ghost predicate PartOk(part: Bytes, text: Bytes) {
    Utf8.Valid(part) && |part| <= SUMMARY_BYTES && (part == [] ==> text == [])
  }

  lemma {:induction false} PartsMakeTheText(text: Bytes)
    ensures Flatten(Parts(text)) == text
    decreases |text|
  {
    var e := CutPoint(text);
    if e == 0 || e == |text| {
      FlattenCons(text, []);
      assert [text] + [] == [text];
    } else {
      PartsMakeTheText(text[e..]);
      FlattenCons(text[..e], Parts(text[e..]));
      assert text[..e] + text[e..] == text;
    }
  }

  lemma {:induction false} PartsAreOk(text: Bytes)
    requires Utf8.Valid(text)
    ensures 1 <= |Parts(text)| <= |text| + 1 && forall k :: 0 <= k < |Parts(text)| ==> PartOk(Parts(text)[k], text)
    decreases |text|
  {
    if text != [] {
      CutTakesSomething(text);
      if CutPoint(text) < |text| { PartsAreOk(text[CutPoint(text)..]); }
    }
  }

  lemma {:induction false} PartsSay(entries: seq<Entry>, parts: seq<Bytes>, message: nat, i: nat)
    requires |entries| == |parts|
    requires forall k :: 0 <= k < |entries| ==> entries[k].message == message && entries[k].text == parts[k]
    ensures TextOf(entries, i) == if i == message then Flatten(parts) else []
  {
    if entries != [] {
      var n := |entries| - 1;
      PartsSay(entries[..n], parts[..n], message, i);
    }
  }

  lemma {:induction false} MessageSays(messages: seq<Message>, m: nat, i: nat)
    requires m < |messages|
    ensures TextOf(MessageEntries(messages, m), i) == if i == m then messages[m].text else []
  {
    var parts := Parts(messages[m].text);
    PartsSay(MessageEntries(messages, m), parts, m, i);
    PartsMakeTheText(messages[m].text);
  }

  lemma {:induction false} JoinedSays(a: seq<Entry>, b: seq<Entry>, i: nat, text: Bytes, early: bool, late: bool)
    requires TextOf(a, i) == (if early then text else []) && TextOf(b, i) == (if late then text else []) && !(early && late)
    ensures TextOf(a + b, i) == if early || late then text else []
  {
    TextOfAppend(a, b, i);
  }

  lemma {:induction false} FlattenedSays(pieces: seq<seq<Entry>>, i: nat, text: Bytes)
    requires forall k :: 0 <= k < |pieces| ==> TextOf(pieces[k], i) == if k == i then text else []
    ensures TextOf(Flatten(pieces), i) == if i < |pieces| then text else []
    decreases |pieces|
  {
    if pieces != [] {
      var n := |pieces| - 1;
      FlattenedSays(pieces[..n], i, text);
      JoinedSays(Flatten(pieces[..n]), pieces[n], i, text, i < n, i == n);
    }
  }

  /** The entries of all messages give back each text, and say nothing else. */
  lemma {:induction false} EntriesSay(messages: seq<Message>, i: nat)
    ensures TextOf(Entries(messages, |messages|), i) == if i < |messages| then messages[i].text else []
  {
    var text := if i < |messages| then messages[i].text else [];
    var pieces := Pieces(messages, |messages|);
    forall k | 0 <= k < |pieces| ensures TextOf(pieces[k], i) == if k == i then text else [] {
      MessageSays(messages, k, i);
    }
    FlattenedSays(pieces, i, text);
  }

  // ----- Everything fits -----

  /** An entry as the cutting makes it. */
  ghost predicate EntryOk(e: Entry) {
    |e.text| <= SUMMARY_BYTES && Utf8.Valid(e.text) && e.message <= MAX_LENGTH && e.part <= MAX_LENGTH
  }

  lemma {:induction false} MessageEntriesOk(messages: seq<Message>, m: nat, k: nat)
    requires ValidMessages(messages) && m < |messages| && k < |MessageEntries(messages, m)|
    ensures EntryOk(MessageEntries(messages, m)[k])
  {
    PartsAreOk(messages[m].text);
    assert PartOk(Parts(messages[m].text)[k], messages[m].text);
  }

  lemma {:induction false} FlattenedFrom<T>(pieces: seq<seq<T>>, k: nat) returns (p: nat, j: nat)
    requires k < |Flatten(pieces)|
    ensures p < |pieces| && j < |pieces[p]| && Flatten(pieces)[k] == pieces[p][j]
    decreases |pieces|
  {
    var n := |pieces| - 1;
    if k < |Flatten(pieces[..n])| {
      p, j := FlattenedFrom(pieces[..n], k);
    } else {
      p, j := n, k - |Flatten(pieces[..n])|;
    }
  }

  lemma {:induction false} EntriesOk(messages: seq<Message>, k: nat)
    requires ValidMessages(messages) && k < |Entries(messages, |messages|)|
    ensures EntryOk(Entries(messages, |messages|)[k])
  {
    var m, j := FlattenedFrom(Pieces(messages, |messages|), k);
    MessageEntriesOk(messages, m, j);
  }

  function Pow10(k: nat): nat { if k == 0 then 1 else 10 * Pow10(k - 1) }

  lemma {:induction false} DigitsBound(n: nat, k: nat)
    requires n < Pow10(k) && k >= 1
    ensures Digits(n) <= k
  {
    if n >= 10 { DigitsBound(n / 10, k - 1); }
  }

  lemma {:induction false} LengthDigits(n: nat)
    requires n <= MAX_LENGTH
    ensures Digits(n) <= 19
  {
    assert Pow10(5) == 100_000;
    assert Pow10(10) == 10_000_000_000;
    assert Pow10(15) == 1_000_000_000_000_000;
    assert Pow10(19) == 10_000_000_000_000_000_000;
    DigitsBound(n, 19);
  }

  lemma {:induction false} EscapedBound(text: Bytes, most: nat)
    requires forall i :: 0 <= i < |text| ==> EscapedByte(text[i]) <= most
    ensures Escaped(text) <= most * |text|
  {
    if text != [] {
      var n := |text| - 1;
      EscapedBound(text[..n], most);
      assert most * (n + 1) == most * n + most;
    }
  }

  /** Even if every byte is escaped to six, an entry fits a chunk of its own. */
  lemma {:induction false} EntriesFit(e: Entry)
    requires EntryOk(e)
    ensures Fits(e, EntrySize, CONTEXT_BYTES)
  {
    LengthDigits(e.message);
    LengthDigits(e.part);
    EscapedBound(e.text, 6);
  }

  // ----- The method -----

  ghost function ChunksOf(messages: seq<Message>): seq<seq<Entry>> {
    Chunks(Pack(Entries(messages, |messages|), EntrySize, CONTEXT_BYTES))
  }

  lemma {:induction false} ChunksArePacked(messages: seq<Message>)
    requires ValidMessages(messages)
    ensures var entries := Entries(messages, |messages|);
            Packed(Pack(entries, EntrySize, CONTEXT_BYTES), entries, EntrySize, CONTEXT_BYTES)
  {
    var entries := Entries(messages, |messages|);
    forall k | 0 <= k < |entries| ensures Fits(entries[k], EntrySize, CONTEXT_BYTES) {
      EntriesOk(messages, k);
      EntriesFit(entries[k]);
    }
    PackPacks(entries, EntrySize, CONTEXT_BYTES);
  }

  /** Chunking loses nothing: the parts of each message, in order, are its text. */
  lemma {:induction false} ChunksLoseNothing(messages: seq<Message>, i: nat)
    requires ValidMessages(messages)
    ensures TextOf(Flatten(ChunksOf(messages)), i) == if i < |messages| then messages[i].text else []
  {
    ChunksArePacked(messages);
    EntriesSay(messages, i);
  }

  /** Every part is cut at character boundaries and holds at most 8,000 bytes. */
  lemma {:induction false} ChunksCutCleanly(messages: seq<Message>, e: Entry)
    requires ValidMessages(messages) && e in Flatten(ChunksOf(messages))
    ensures Utf8.Valid(e.text) && |e.text| <= SUMMARY_BYTES
  {
    ChunksArePacked(messages);
    var k :| 0 <= k < |Entries(messages, |messages|)| && e == Entries(messages, |messages|)[k];
    EntriesOk(messages, k);
  }

  /** Every chunk stays within 64,000 bytes however its text is escaped, and none is empty unless all are. */
  lemma {:induction false} ChunksFit(messages: seq<Message>, k: nat)
    requires ValidMessages(messages) && k < |ChunksOf(messages)|
    ensures ChunkSize(ChunksOf(messages)[k]) <= CONTEXT_BYTES
    ensures messages != [] ==> ChunksOf(messages)[k] != []
    ensures messages == [] ==> ChunksOf(messages) == [[]]
  {
    ChunksArePacked(messages);
    if messages != [] { EntriesExist(messages); }
    var p := Pack(Entries(messages, |messages|), EntrySize, CONTEXT_BYTES);
    assert ChunksOf(messages)[k] == if k < |p.done| then p.done[k] else p.chunk;
    assert ChunkSize(ChunksOf(messages)[k]) <= Filled(ChunksOf(messages)[k], EntrySize);
  }

  /** Every chunk but the last had no room for what comes next. */
  lemma {:induction false} ChunksAreFull(messages: seq<Message>, k: nat)
    requires ValidMessages(messages) && k < |ChunksOf(messages)| - 1
    ensures Full(ChunksOf(messages)[k], ChunksOf(messages)[k + 1], EntrySize, CONTEXT_BYTES)
  {
    ChunksArePacked(messages);
  }

  lemma {:induction false} EntriesExist(messages: seq<Message>)
    requires messages != []
    ensures Entries(messages, |messages|) != []
  {
    var n := |messages| - 1;
    assert Parts(messages[n].text) != [];
    EntriesNext(messages, n);
  }

  /** The cut, found by stepping back from the limit. */
  method FindCut(text: Bytes) returns (end: nat)
    ensures end == CutPoint(text)
  {
    end := Least(|text|, SUMMARY_BYTES);
    while !Utf8.Boundary(text, end)
      invariant end <= |text| && Back(text, end) == CutPoint(text)
      decreases end
    {
      end := end - 1;
    }
  }

  /** What is left of a text's parts once the first one is cut off. */
  lemma {:induction false} NextPart(text: Bytes)
    requires Utf8.Valid(text)
    ensures var e := CutPoint(text);
            && e <= |text| && (text != [] ==> e > 0) && Utf8.Valid(text[e..])
            && Parts(text)[0] == text[..e] && Parts(text)[1..] == if text[e..] == [] then [] else Parts(text[e..])
  {
    if text != [] { CutTakesSomething(text); }
    assert text[..|text|] == text;
  }

  /** Everything before a message is packed, and its first n parts. */
  ghost function PackedTo(before: seq<Entry>, role: Role, index: nat, parts: seq<Bytes>, n: nat): Packing<Entry>
    requires n <= |parts|
  {
    Pack(before + PartEntries(role, index, parts, n), EntrySize, CONTEXT_BYTES)
  }

  lemma {:induction false} PlaceNext(before: seq<Entry>, role: Role, index: nat, parts: seq<Bytes>, n: nat)
    requires n < |parts|
    ensures PackedTo(before, role, index, parts, n + 1)
            == Place(PackedTo(before, role, index, parts, n), Entry(role, index, n, parts[n]), EntrySize, CONTEXT_BYTES)
  {
    var entry := Entry(role, index, n, parts[n]);
    assert before + PartEntries(role, index, parts, n + 1) == before + PartEntries(role, index, parts, n) + [entry];
    PackSnoc(before + PartEntries(role, index, parts, n), entry, EntrySize, CONTEXT_BYTES);
  }

  /** Adds an entry to the chunk being filled, or closes that chunk and starts the next one. */
  method PutEntry(p: Packing<Entry>, size: nat, entry: Entry) returns (q: Packing<Entry>, filled: nat)
    requires size == Filled(p.chunk, EntrySize)
    ensures q == Place(p, entry, EntrySize, CONTEXT_BYTES) && filled == Filled(q.chunk, EntrySize)
  {
    var bytes := EntrySize(entry) + 1;
    SizesSnoc([], entry, EntrySize);
    SizesSnoc(p.chunk, entry, EntrySize);
    q, filled := p, size;
    if size + bytes > CONTEXT_BYTES {
      q := Packing(p.done + [p.chunk], []);
      filled := 2;
    }
    q, filled := q.(chunk := q.chunk + [entry]), filled + bytes;
  }

  /** The loop over one message: its parts are cut off and placed one by one. */
  method PackMessage(message: Message, index: nat, ghost before: seq<Entry>, packed: Packing<Entry>, size: nat)
    returns (p: Packing<Entry>, filled: nat)
    requires Utf8.Valid(message.text) && size == Filled(packed.chunk, EntrySize)
    requires packed == Pack(before, EntrySize, CONTEXT_BYTES)
    ensures var parts := Parts(message.text);
            p == PackedTo(before, message.role, index, parts, |parts|)
    ensures filled == Filled(p.chunk, EntrySize)
  {
    ghost var parts := Parts(message.text);
    assert before + PartEntries(message.role, index, parts, 0) == before;
    p, filled := packed, size;
    var remaining, part, more := message.text, 0, true;
    while more
      invariant part <= |parts| && p == PackedTo(before, message.role, index, parts, part)
      invariant filled == Filled(p.chunk, EntrySize)
      invariant if more then Parts(remaining) == parts[part..] && Utf8.Valid(remaining) && (part > 0 ==> remaining != [])
                else part == |parts|
      decreases if more then |remaining| + 1 else 0
    {
      var end := FindCut(remaining);
      NextPart(remaining);
      PlaceNext(before, message.role, index, parts, part);
      p, filled := PutEntry(p, filled, Entry(message.role, index, part, remaining[..end]));
      assert parts[part..][1..] == parts[part + 1..];
      remaining := remaining[end..];
      more := remaining != [];
      part := part + 1;
    }
  }

  method MakeChunks(messages: seq<Message>) returns (chunks: seq<seq<Entry>>)
    requires ValidMessages(messages)
    ensures chunks == ChunksOf(messages)
  {
    var p, size := Packing([], []), 2;
    var i := 0;
    while i < |messages|
      invariant i <= |messages| && p == Pack(Entries(messages, i), EntrySize, CONTEXT_BYTES)
      invariant size == Filled(p.chunk, EntrySize)
    {
      p, size := PackMessage(messages[i], i, Entries(messages, i), p, size);
      EntriesNext(messages, i);
      i := i + 1;
    }
    chunks := p.done + [p.chunk];
  }

  // ----- Summarising until one chunk is left -----

  /** A byte that starts no control character other than newline and tab; U+0080 to U+009F are C2 80 to C2 9F. */
  predicate Plain(s: Bytes, i: nat)
    requires i < |s|
  {
    && (s[i] >= 0x20 || s[i] == 9 || s[i] == 10) && s[i] != 0x7F
    && (s[i] == 0xC2 && i + 1 < |s| ==> s[i + 1] >= 0xA0)
  }

  /** `valid_summary`, of the trimmed summary text. */
  predicate ValidSummary(s: Bytes) {
    s != [] && |s| <= SUMMARY_BYTES && forall i :: 0 <= i < |s| ==> Plain(s, i)
  }

  ghost predicate Summaries(messages: seq<Message>) {
    && ValidMessages(messages)
    && forall i :: 0 <= i < |messages| ==> messages[i].role == Summary && ValidSummary(messages[i].text)
  }

  lemma {:induction false} ShortTextIsOnePart(text: Bytes)
    requires |text| <= SUMMARY_BYTES
    ensures Parts(text) == [text]
  {
  }

  lemma {:induction false} FlattenSingles<T>(pieces: seq<seq<T>>)
    requires forall k :: 0 <= k < |pieces| ==> |pieces[k]| == 1
    ensures |Flatten(pieces)| == |pieces| && forall k :: 0 <= k < |pieces| ==> Flatten(pieces)[k] == pieces[k][0]
  {
    if pieces != [] { FlattenSingles(pieces[..|pieces| - 1]); }
  }

  lemma {:induction false} ShortMessageIsOneEntry(messages: seq<Message>, i: nat)
    requires i < |messages| && |messages[i].text| <= SUMMARY_BYTES
    ensures MessageEntries(messages, i) == [Entry(messages[i].role, i, 0, messages[i].text)]
  {
    ShortTextIsOnePart(messages[i].text);
  }

  lemma {:induction false} ShortMessagesAreEntries(messages: seq<Message>)
    requires forall i :: 0 <= i < |messages| ==> |messages[i].text| <= SUMMARY_BYTES
    ensures |Entries(messages, |messages|)| == |messages|
    ensures forall i :: 0 <= i < |messages| ==>
              Entries(messages, |messages|)[i] == Entry(messages[i].role, i, 0, messages[i].text)
  {
    var pieces := Pieces(messages, |messages|);
    forall k | 0 <= k < |pieces| ensures pieces[k] == [Entry(messages[k].role, k, 0, messages[k].text)] {
      ShortMessageIsOneEntry(messages, k);
    }
    FlattenSingles(pieces);
  }

  /** A validated summary at most doubles when it is escaped. */
  lemma {:induction false} SummariesAreShort(e: Entry)
    requires EntryOk(e) && ValidSummary(e.text) && e.role == Summary
    ensures EntrySize(e) + 1 <= 16_100
  {
    LengthDigits(e.message);
    LengthDigits(e.part);
    forall i | 0 <= i < |e.text| ensures EscapedByte(e.text[i]) <= 2 { assert Plain(e.text, i); }
    EscapedBound(e.text, 2);
  }

  lemma {:induction false} FlattenedHolds<T>(parts: seq<seq<T>>, k: nat, j: nat)
    requires k < |parts| && j < |parts[k]|
    ensures parts[k][j] in Flatten(parts)
  {
    var n := |parts| - 1;
    if k < n { FlattenedHolds(parts[..n], k, j); }
  }

  lemma {:induction false} FlattenedLength<T>(parts: seq<seq<T>>, least: nat)
    requires parts != [] && parts[|parts| - 1] != []
    requires forall k :: 0 <= k < |parts| - 1 ==> |parts[k]| >= least
    ensures |Flatten(parts)| >= least * (|parts| - 1) + 1
    decreases |parts|
  {
    var n := |parts| - 1;
    FlattenedAtLeast(parts[..n], least);
  }

  lemma {:induction false} FlattenedAtLeast<T>(parts: seq<seq<T>>, least: nat)
    requires forall k :: 0 <= k < |parts| ==> |parts[k]| >= least
    ensures |Flatten(parts)| >= least * |parts|
  {
    if parts != [] {
      var n := |parts| - 1;
      FlattenedAtLeast(parts[..n], least);
      assert least * (n + 1) == least * n + least;
    }
  }

  /** Every entry of a packed list of summaries is short. */
  lemma {:induction false} PackedSummariesAreShort(messages: seq<Message>, e: Entry)
    requires Summaries(messages) && e in Flatten(ChunksOf(messages))
    ensures EntrySize(e) + 1 <= 16_100
  {
    ChunksArePacked(messages);
    SummaryEntriesAreShort(messages, e);
  }

  lemma {:induction false} SummaryEntriesAreShort(messages: seq<Message>, e: Entry)
    requires Summaries(messages) && e in Entries(messages, |messages|)
    ensures EntrySize(e) + 1 <= 16_100
  {
    ShortMessagesAreEntries(messages);
    var i :| 0 <= i < |messages| && e == Entries(messages, |messages|)[i];
    EntriesOk(messages, i);
    SummariesAreShort(e);
  }

  /** Every chunk of summaries but the last holds at least three of them. */
  lemma {:induction false} ThreeToAChunk(messages: seq<Message>, k: nat)
    requires Summaries(messages) && k < |ChunksOf(messages)| - 1
    ensures |ChunksOf(messages)[k]| >= 3
  {
    var chunk, next := ChunksOf(messages)[k], ChunksOf(messages)[k + 1];
    ChunksAreFull(messages, k);
    forall j | 0 <= j < |chunk| ensures EntrySize(chunk[j]) + 1 <= 16_100 {
      FlattenedHolds(ChunksOf(messages), k, j);
      PackedSummariesAreShort(messages, chunk[j]);
    }
    SizesBound(chunk, EntrySize, 16_100);
    FlattenedHolds(ChunksOf(messages), k + 1, 0);
    PackedSummariesAreShort(messages, next[0]);
  }

  /** So packing summaries leaves about a third as many chunks, and fewer in any case. */
  lemma {:induction false} SummariesShrink(messages: seq<Message>)
    requires Summaries(messages) && |messages| >= 2
    ensures 3 * (|ChunksOf(messages)| - 1) + 1 <= |messages|
    ensures |ChunksOf(messages)| < |messages|
  {
    var chunks := ChunksOf(messages);
    forall k | 0 <= k < |chunks| - 1 ensures |chunks[k]| >= 3 { ThreeToAChunk(messages, k); }
    ChunksFit(messages, |chunks| - 1);
    FlattenedLength(chunks, 3);
    ChunksArePacked(messages);
    ShortMessagesAreEntries(messages);
  }

  /** What the model makes of a chunk: a trimmed text, if its reply can be read at all. */
  type Model = seq<Entry> -> Option<Bytes>

  /** Replies are texts. */
  ghost predicate Texts(model: Model) {
    forall chunk :: model(chunk).Some? ==> Utf8.Valid(model(chunk).value)
  }

  /** The summaries of the first n chunks, if all of them are valid. */
  ghost function Summarised(chunks: seq<seq<Entry>>, n: nat, model: Model): Option<seq<Message>>
    requires n <= |chunks|
  {
    if n == 0 then Some([])
    else
      var before := Summarised(chunks, n - 1, model);
      var reply := model(chunks[n - 1]);
      if before.None? || reply.None? || !ValidSummary(reply.value) then None
      else Some(before.value + [Message(Summary, reply.value)])
  }

  lemma {:induction false} SummarisedIs(chunks: seq<seq<Entry>>, n: nat, model: Model)
    requires n <= |chunks| <= MAX_LENGTH && Texts(model) && Summarised(chunks, n, model).Some?
    ensures |Summarised(chunks, n, model).value| == n && Summaries(Summarised(chunks, n, model).value)
  {
    if n > 0 { SummarisedIs(chunks, n - 1, model); }
  }

  /** A conversation that fits the machine: its chunks make a list, too. */
  ghost predicate Summarisable(messages: seq<Message>) {
    ValidMessages(messages) && |ChunksOf(messages)| <= MAX_LENGTH
  }

  /** A round of summaries packs into fewer chunks than it summarised. */
  lemma {:induction false} RoundsShrink(chunks: seq<seq<Entry>>, model: Model, next: seq<Message>)
    requires 2 <= |chunks| <= MAX_LENGTH && Texts(model) && Summarised(chunks, |chunks|, model) == Some(next)
    ensures Summarisable(next) && |ChunksOf(next)| < |chunks| && 3 * (|ChunksOf(next)| - 1) <= |chunks| - 1
  {
    SummarisedIs(chunks, |chunks|, model);
    SummariesShrink(next);
  }

  /** The single chunk a conversation is condensed to, by a recursion that ends. */
  ghost function Condensed(messages: seq<Message>, model: Model): Option<seq<Entry>>
    requires Summarisable(messages) && Texts(model)
    decreases |ChunksOf(messages)|
  {
    var chunks := ChunksOf(messages);
    if |chunks| == 1 then Some(chunks[0])
    else
      var next := Summarised(chunks, |chunks|, model);
      if next.None? then None
      else
        RoundsShrink(chunks, model, next.value);
        Condensed(next.value, model)
  }

  /** A reply that counts: 1 to 8,000 bytes, without control characters other than tabs and line feeds. */
  ghost predicate Counts(reply: Option<Bytes>) {
    reply.Some? && 1 <= |reply.value| <= 8_000 && forall i :: 0 <= i < |reply.value| ==> NoControl(reply.value, i)
  }

  /** No control character begins at byte i: none of U+0000 to U+001F but tab and line feed, nor U+007F to U+009F. */
  ghost predicate NoControl(s: Bytes, i: nat)
    requires i < |s|
  {
    && s[i] != 0x7F && (s[i] < 0x20 ==> s[i] == 9 || s[i] == 10)
    && !(s[i] == 0xC2 && i + 1 < |s| && s[i + 1] < 0xA0)
  }

  lemma ValidIff(s: Bytes)
    ensures ValidSummary(s) <==> Counts(Some(s))
  {
    forall i | 0 <= i < |s| ensures Plain(s, i) <==> NoControl(s, i) {}
    if ValidSummary(s) {
      forall i | 0 <= i < |s| ensures NoControl(s, i) { assert Plain(s, i); }
    }
    if Counts(Some(s)) {
      forall i | 0 <= i < |s| ensures Plain(s, i) { assert NoControl(s, i); }
    }
  }

  /** A round replaces every chunk by the model's reply to it, in order; each of them counts. */
  ghost predicate IsRound(chunks: seq<seq<Entry>>, n: nat, model: Model, next: seq<Message>)
    requires n <= |chunks|
  {
    && |next| == n
    && forall k :: 0 <= k < n ==> Counts(model(chunks[k])) && next[k] == Message(Summary, model(chunks[k]).value)
  }

  lemma {:induction false} RoundIs(chunks: seq<seq<Entry>>, n: nat, model: Model)
    requires n <= |chunks|
    ensures Summarised(chunks, n, model).Some? <==> forall k :: 0 <= k < n ==> Counts(model(chunks[k]))
    ensures Summarised(chunks, n, model).Some? ==> IsRound(chunks, n, model, Summarised(chunks, n, model).value)
  {
    if n > 0 {
      var m := n - 1;
      RoundIs(chunks, m, model);
      if model(chunks[m]).Some? { ValidIff(model(chunks[m]).value); }
    }
  }

  /** What a conversation goes through until one chunk is left, or a reply does not count. */
  ghost predicate AreRounds(rounds: seq<seq<Message>>, messages: seq<Message>, model: Model) {
    && rounds != [] && rounds[0] == messages
    && (|rounds| > 1 ==> Follows(messages, rounds[1], model) && AreRounds(rounds[1..], rounds[1], model))
  }

  /** Every chunk has been summarised. */
  ghost predicate Follows(messages: seq<Message>, next: seq<Message>, model: Model) {
    |ChunksOf(messages)| != 1 && IsRound(ChunksOf(messages), |ChunksOf(messages)|, model, next)
  }

  /** The conversation condenses to the one chunk left after these rounds, or fails at a reply that does not count. */
  lemma {:induction false} CondensesByRounds(messages: seq<Message>, model: Model) returns (rounds: seq<seq<Message>>)
    requires Summarisable(messages) && Texts(model)
    ensures AreRounds(rounds, messages, model)
    ensures var chunks := ChunksOf(rounds[|rounds| - 1]);
            match Condensed(messages, model)
            case Some(chunk) => chunks == [chunk]
            case None => |chunks| != 1 && exists k :: 0 <= k < |chunks| && !Counts(model(chunks[k]))
    decreases |ChunksOf(messages)|
  {
    var chunks := ChunksOf(messages);
    RoundIs(chunks, |chunks|, model);
    var next := Summarised(chunks, |chunks|, model);
    if |chunks| == 1 || next.None? {
      rounds := [messages];
    } else {
      SomeChunks(messages);
      RoundsShrink(chunks, model, next.value);
      var rest := CondensesByRounds(next.value, model);
      rounds := [messages] + rest;
      assert rounds[1..] == rest;
    }
  }

  lemma SomeChunks(messages: seq<Message>)
    ensures |ChunksOf(messages)| >= 1
  {
  }

  method Summarise(chunks: seq<seq<Entry>>, model: Model) returns (messages: Option<seq<Message>>)
    ensures messages == Summarised(chunks, |chunks|, model)
  {
    var list: seq<Message> := [];
    var i := 0;
    while i < |chunks|
      invariant i <= |chunks| && Summarised(chunks, i, model) == Some(list)
    {
      var reply := model(chunks[i]);
      if reply.None? || !ValidSummary(reply.value) {
        StaysRefused(chunks, i + 1, model);
        return None;
      }
      list := list + [Message(Summary, reply.value)];
      i := i + 1;
    }
    return Some(list);
  }

  lemma {:induction false} StaysRefused(chunks: seq<seq<Entry>>, n: nat, model: Model)
    requires n <= |chunks| && Summarised(chunks, n, model).None?
    ensures Summarised(chunks, |chunks|, model).None?
    decreases |chunks| - n
  {
    if n < |chunks| { StaysRefused(chunks, n + 1, model); }
  }

  /** `generate`: it ends, because each round leaves fewer chunks, and names what the conversation condenses to. */
  method Generate(conversation: seq<Message>, model: Model, name: Model) returns (title: Option<Bytes>)
    requires Summarisable(conversation) && Texts(model)
    ensures var condensed := Condensed(conversation, model);
            title == if condensed.None? then None else name(condensed.value)
  {
    var messages := conversation;
    while true
      invariant Summarisable(messages) && Condensed(messages, model) == Condensed(conversation, model)
      decreases |ChunksOf(messages)|
    {
      var chunks := MakeChunks(messages);
      if |chunks| == 1 { return name(chunks[0]); }
      var next := Summarise(chunks, model);
      if next.None? { return None; }
      RoundsShrink(chunks, model, next.value);
      messages := next.value;
    }
  }

  // ----- Why summaries are validated -----

  ghost function Repeat(b: byte, n: nat): (s: Bytes)
    ensures |s| == n && forall i :: 0 <= i < n ==> s[i] == b
  {
    if n == 0 then [] else Repeat(b, n - 1) + [b]
  }

  lemma {:induction false} RepeatEscaped(n: nat)
    ensures Escaped(Repeat(1, n)) == 6 * n
  {
    if n > 0 {
      var m := n - 1;
      RepeatEscaped(m);
      assert Repeat(1, n) == Repeat(1, m) + [1] && (Repeat(1, m) + [1])[..m] == Repeat(1, m);
    }
  }

  lemma {:induction false} RepeatValid(s: Bytes)
    requires forall i :: 0 <= i < |s| ==> s[i] == 1
    ensures Utf8.Valid(s)
  {
    if s != [] { RepeatValid(s[1..]); }
  }

  /** Summaries of 8,000 control characters are short enough, but pack into as many chunks as there are of them. */
  lemma {:induction false} UnvalidatedNeverShrink(messages: seq<Message>)
    requires messages != [] && |messages| <= MAX_LENGTH
    requires forall i :: 0 <= i < |messages| ==> messages[i] == Message(Summary, Repeat(1, SUMMARY_BYTES))
    ensures |ChunksOf(messages)| == |messages|
  {
    RepeatValid(Repeat(1, SUMMARY_BYTES));
    RepeatEscaped(SUMMARY_BYTES);
    ShortMessagesAreEntries(messages);
    var entries := Entries(messages, |messages|);
    forall k | 0 <= k < |entries| ensures Fits(entries[k], EntrySize, CONTEXT_BYTES) && 2 * EntrySize(entries[k]) > CONTEXT_BYTES {
      EntriesFit(entries[k]);
    }
    LargeItemsStayAlone(entries, EntrySize, CONTEXT_BYTES);
  }
}
