/** What the fact cache compares: a hash over the text of an index's chunks
    (`backend/app/fact_inventory_cache.py:50-61`), and which chunks that text
    identifies. */
module FactFingerprint {
  import opened Common
  import Cache = FactCache

  datatype Chunk = Chunk(id: string, order: string, text: string)

  function Line(field: string, rest: string): string { field + "\n" + rest }

  function Part(c: Chunk): string { Line(c.id, Line(c.order, c.text)) }

  const SEPARATOR := "\n--\n"

  // What is hashed: the chunks' parts, joined by the separator.
  function Evidence(chunks: seq<Chunk>): string
    decreases |chunks|, 0
  {
    if chunks == [] then "" else Part(chunks[0]) + Rest(chunks[1..])
  }

  function Rest(chunks: seq<Chunk>): string
    decreases |chunks|, 1
  {
    if chunks == [] then "" else SEPARATOR + Evidence(chunks)
  }

  // As a retrieval index has them: no line break in an id or an order.
  predicate Plain(c: Chunk) { '\n' !in c.id && '\n' !in c.order }

  predicate AllPlain(chunks: seq<Chunk>) { forall i :: 0 <= i < |chunks| ==> Plain(chunks[i]) }

  // What `str.strip` takes off.
  predicate Blank(c: char) {
    var n := c as int;
    9 <= n <= 13 || 28 <= n <= 32 || n == 0x85 || n == 0xA0 || n == 0x1680 || 0x2000 <= n <= 0x200A
    || n == 0x2028 || n == 0x2029 || n == 0x202F || n == 0x205F || n == 0x3000
  }

  predicate Stripped(id: string) { id == "" || (!Blank(id[0]) && !Blank(id[|id| - 1])) }

  // Ids are stripped before they are hashed.
  predicate FromIndex(chunks: seq<Chunk>) {
    AllPlain(chunks) && forall i :: 0 <= i < |chunks| ==> Stripped(chunks[i].id)
  }

  // Tabs and line ends, the four information separators, space and the spaces
  // beyond ASCII.
  lemma BlankIff(c: char)
    ensures Blank(c) <==> c as int in {9, 10, 11, 12, 13, 28, 29, 30, 31, 32, 133, 160, 5760, 8192, 8193, 8194, 8195,
                                       8196, 8197, 8198, 8199, 8200, 8201, 8202, 8232, 8233, 8239, 8287, 12288}
  {
  }

  lemma StrippedIff(id: string)
    ensures Stripped(id) <==> id == "" || !(Blank(id[0]) || Blank(id[|id| - 1]))
  {
  }

  // The parts of two lists are joined as those of one, by a line of two dashes.
  lemma {:induction false} EvidenceJoins(a: seq<Chunk>, b: seq<Chunk>)
    requires a != [] && b != []
    ensures Evidence(a + b) == Evidence(a) + "\n--\n" + Evidence(b)
    decreases |a|
  {
    assert (a + b)[0] == a[0] && (a + b)[1..] == a[1..] + b;
    if |a| == 1 {
      assert a[1..] + b == b;
    } else {
      EvidenceJoins(a[1..], b);
      var part, first, second := Part(a[0]), Evidence(a[1..]), Evidence(b);
      assert part + (SEPARATOR + (first + SEPARATOR + second)) == (part + (SEPARATOR + first)) + SEPARATOR + second;
    }
  }

  lemma EvidenceOfEach(c: Chunk)
    ensures Evidence([]) == "" && Evidence([c]) == c.id + "\n" + c.order + "\n" + c.text
  {
    assert [c][1..] == [] && Part(c) + "" == Part(c);
    assert c.id + "\n" + (c.order + "\n" + c.text) == c.id + "\n" + c.order + "\n" + c.text;
  }

  predicate SeparatorAt(text: string, i: nat) { i + 4 <= |text| && text[i..i + 4] == SEPARATOR }

  // A text with the separator in it, or ending in the middle of one.
  ghost predicate Broken(text: string) {
    (exists i: nat :: SeparatorAt(text, i)) || (|text| >= 3 && text[|text| - 3..] == "\n--")
  }

  ghost predicate AllWhole(chunks: seq<Chunk>) { forall i :: 0 <= i < |chunks| ==> !Broken(chunks[i].text) }

  // ------------------------------------------------------------------ //
  // Reading the evidence back
  // ------------------------------------------------------------------ //

  lemma LineAppend(field: string, x: string, y: string)
    ensures Line(field, x) + y == Line(field, x + y)
  {
  }

  lemma EvidenceReads(chunks: seq<Chunk>)
    requires chunks != []
    ensures Evidence(chunks) == Line(chunks[0].id, Line(chunks[0].order, chunks[0].text + Rest(chunks[1..])))
  {
    var c, rest := chunks[0], Rest(chunks[1..]);
    LineAppend(c.id, Line(c.order, c.text), rest);
    LineAppend(c.order, c.text, rest);
  }

  // A field without line breaks ends at the first one.
  lemma FieldIsDetermined(a: string, x: string, b: string, y: string)
    requires '\n' !in a && '\n' !in b && Line(a, x) == Line(b, y)
    ensures a == b && x == y
  {
    UpToFinds(a, '\n', x);
    UpToFinds(b, '\n', y);
    assert a == Line(a, x)[..|a|] && b == Line(b, y)[..|b|];
    assert x == Line(a, x)[|a| + 1..] && y == Line(b, y)[|b| + 1..];
  }

  lemma RestStarts(chunks: seq<Chunk>)
    ensures Rest(chunks) == "" || SeparatorAt(Rest(chunks), 0)
  {
    if chunks != [] { assert Rest(chunks)[0..4] == SEPARATOR; }
  }

  // Where a longer text goes on, a shorter one is followed by the separator.
  lemma LongerIsBroken(a: string, x: string, b: string, y: string)
    requires |a| < |b| && a + x == b + y && (x == "" || SeparatorAt(x, 0)) && (y == "" || SeparatorAt(y, 0))
    ensures Broken(b)
  {
    var t, n := b + y, |a|;
    assert t == a + x && |x| >= 4 && x[0..4] == SEPARATOR;
    assert t[n] == x[0] == SEPARATOR[0] && t[n + 1] == x[1] == SEPARATOR[1];
    assert t[n + 2] == x[2] == SEPARATOR[2] && t[n + 3] == x[3] == SEPARATOR[3];
    if |b| >= n + 4 {
      assert b[n..n + 4] == SEPARATOR;
      assert SeparatorAt(b, n);
    } else {
      assert y != "" && t[|b|] == y[0] == y[0..4][0] == SEPARATOR[0];
      assert |b| == n + 3;
      assert b[|b| - 3..] == "\n--";
    }
  }

  lemma TextIsDetermined(a: string, x: string, b: string, y: string)
    requires !Broken(a) && !Broken(b) && a + x == b + y
    requires (x == "" || SeparatorAt(x, 0)) && (y == "" || SeparatorAt(y, 0))
    ensures a == b && x == y
  {
    if |a| < |b| {
      LongerIsBroken(a, x, b, y);
    } else if |b| < |a| {
      LongerIsBroken(b, y, a, x);
    } else {
      assert a == (a + x)[..|a|] && b == (b + y)[..|b|];
      assert x == (a + x)[|a|..] && y == (b + y)[|b|..];
    }
  }

  lemma OnlyEmptyIsEmpty(chunks: seq<Chunk>)
    ensures Evidence(chunks) == "" <==> chunks == []
  {
    if chunks != [] { EvidenceReads(chunks); }
  }

  lemma FirstChunkIsDetermined(a: seq<Chunk>, b: seq<Chunk>)
    requires a != [] && b != [] && AllPlain(a) && AllPlain(b) && AllWhole(a) && AllWhole(b)
    requires Evidence(a) == Evidence(b)
    ensures a[0] == b[0] && Rest(a[1..]) == Rest(b[1..])
  {
    EvidenceReads(a);
    EvidenceReads(b);
    RestStarts(a[1..]);
    RestStarts(b[1..]);
    var x, y := a[0].text + Rest(a[1..]), b[0].text + Rest(b[1..]);
    FieldIsDetermined(a[0].id, Line(a[0].order, x), b[0].id, Line(b[0].order, y));
    FieldIsDetermined(a[0].order, x, b[0].order, y);
    TextIsDetermined(a[0].text, Rest(a[1..]), b[0].text, Rest(b[1..]));
  }

  // With ids and orders free of line breaks and texts free of the separator,
  // the evidence is that of one list of chunks only.
  lemma {:induction false} EvidenceIsInjective(a: seq<Chunk>, b: seq<Chunk>)
    requires AllPlain(a) && AllPlain(b) && AllWhole(a) && AllWhole(b) && Evidence(a) == Evidence(b)
    ensures a == b
    decreases |a|
  {
    OnlyEmptyIsEmpty(a);
    OnlyEmptyIsEmpty(b);
    if a != [] {
      FirstChunkIsDetermined(a, b);
      RestsMatch(a[1..], b[1..]);
      EvidenceIsInjective(a[1..], b[1..]);
      assert a == [a[0]] + a[1..] && b == [b[0]] + b[1..];
    }
  }

  lemma RestsMatch(a: seq<Chunk>, b: seq<Chunk>)
    requires Rest(a) == Rest(b)
    ensures Evidence(a) == Evidence(b)
  {
    if a != [] && b != [] { assert Evidence(a) == Rest(a)[4..] && Evidence(b) == Rest(b)[4..]; }
  }

  // So with a collision-free hash, equal fingerprints mean equal chunks.
  lemma FingerprintIdentifiesChunks(hash: string -> string, asked: seq<Chunk>, built: seq<Chunk>)
    requires AllPlain(asked) && AllPlain(built) && AllWhole(asked) && AllWhole(built)
    requires forall a, b :: hash(a) == hash(b) ==> a == b
    ensures hash(Evidence(asked)) == hash(Evidence(built)) <==> asked == built
  {
    if hash(Evidence(asked)) == hash(Evidence(built)) { EvidenceIsInjective(asked, built); }
  }

  // And then an inventory served from the cache was extracted from the very
  // chunks the caller asked about, whatever builds and replacements of the
  // index went before.
  lemma CachedInventoryIsOfTheseChunks(hash: string -> string, es: seq<Cache.Event>, c: nat, asked: seq<Chunk>,
        built: seq<Chunk>)
    requires AllPlain(asked) && AllPlain(built) && AllWhole(asked) && AllWhole(built)
    requires forall a, b :: hash(a) == hash(b) ==> a == b
    requires var s := Cache.Run(Cache.Empty, es);
             c in s.callers && s.callers[c].Served? && s.callers[c].cached
             && s.callers[c].asked == hash(Evidence(asked))
             && s.callers[c].answer.inventory.source == hash(Evidence(built))
    ensures asked == built
  {
    Cache.OneBuildAndAnHonestCache(es, 0, 0, c);
    FingerprintIdentifiesChunks(hash, asked, built);
  }

  // ------------------------------------------------------------------ //
  // When a list shares its evidence with another
  // ------------------------------------------------------------------ //

  // An id, an order and a text: two line breaks at least, the first after a
  // stripped id.
  predicate LooksLikeAPart(s: string) {
    '\n' in s && (UpToSplits(s, '\n'); Stripped(s[..UpTo(s, '\n')]) && '\n' in s[UpTo(s, '\n') + 1..])
  }

  // The text can be read as two chunks, the second of them after the
  // separator at `i`.
  predicate SplitsAt(text: string, i: nat) { SeparatorAt(text, i) && LooksLikeAPart(text[i + 4..]) }

  lemma LineLooks(field: string, rest: string)
    requires '\n' !in field
    ensures '\n' in Line(field, rest) && UpTo(Line(field, rest), '\n') == |field|
    ensures Line(field, rest)[..|field|] == field && Line(field, rest)[|field| + 1..] == rest
  {
    UpToFinds(field, '\n', rest);
    assert Line(field, rest)[|field|] == '\n';
  }

  lemma EvidenceLooksLikeAPart(chunks: seq<Chunk>)
    requires chunks != [] && FromIndex(chunks)
    ensures LooksLikeAPart(Evidence(chunks))
  {
    EvidenceReads(chunks);
    var c := chunks[0];
    var rest := c.text + Rest(chunks[1..]);
    LineLooks(c.id, Line(c.order, rest));
    LineLooks(c.order, rest);
  }

  lemma ReadLine(s: string) returns (field: string, rest: string)
    requires '\n' in s
    ensures '\n' !in field && s == Line(field, rest) && UpTo(s, '\n') == |field| && |field| < |s|
    ensures field == s[..|field|] && rest == s[|field| + 1..]
  {
    UpToSplits(s, '\n');
    field, rest := s[..UpTo(s, '\n')], s[UpTo(s, '\n') + 1..];
  }

  lemma ReadChunk(s: string) returns (c: Chunk)
    requires LooksLikeAPart(s)
    ensures Plain(c) && Stripped(c.id) && Part(c) == s
  {
    var id, afterId := ReadLine(s);
    var order, text := ReadLine(afterId);
    c := Chunk(id, order, text);
  }

  lemma EvidenceOfTwo(a: Chunk, b: Chunk)
    ensures Evidence([a, b]) == Line(a.id, Line(a.order, a.text + (SEPARATOR + Part(b))))
  {
    assert [a, b][1..] == [b] && [b][1..] == [];
    assert Evidence([b]) == Part(b) + "" == Part(b);
    EvidenceReads([a, b]);
  }

  lemma EvidenceOfOne(c: Chunk)
    ensures Evidence([c]) == Part(c)
  {
    assert [c][1..] == [];
    assert Part(c) + "" == Part(c);
  }

  // Any two chunks read as one as well: different chunks can have the same
  // evidence, whatever the hash.
  lemma EvidenceIsAmbiguous(a: Chunk, b: Chunk)
    ensures Evidence([a, b]) == Evidence([Chunk(a.id, a.order, a.text + (SEPARATOR + Part(b)))])
  {
    EvidenceOfTwo(a, b);
    EvidenceOfOne(Chunk(a.id, a.order, a.text + (SEPARATOR + Part(b))));
  }

  lemma SplitTextHasATwin(c: Chunk, i: nat) returns (other: seq<Chunk>)
    requires Plain(c) && Stripped(c.id) && SplitsAt(c.text, i)
    ensures FromIndex(other) && Evidence(other) == Evidence([c]) && other != [c]
  {
    var b := ReadChunk(c.text[i + 4..]);
    var a := Chunk(c.id, c.order, c.text[..i]);
    other := [a, b];
    TwoFromIndex(a, b);
    TextAround(c.text, i);
    assert Chunk(a.id, a.order, a.text + (SEPARATOR + Part(b))) == c;
    EvidenceIsAmbiguous(a, b);
  }

  lemma TwoFromIndex(a: Chunk, b: Chunk)
    requires Plain(a) && Plain(b) && Stripped(a.id) && Stripped(b.id)
    ensures FromIndex([a, b])
  {
  }

  lemma TextAround(text: string, i: nat)
    requires SeparatorAt(text, i)
    ensures text == text[..i] + (SEPARATOR + text[i + 4..])
  {
    assert text[i..] == text[i..i + 4] + text[i + 4..];
  }

  lemma ManyChunksHaveATwin(chunks: seq<Chunk>) returns (c: Chunk)
    requires FromIndex(chunks) && chunks != []
    ensures Plain(c) && Stripped(c.id) && Evidence([c]) == Evidence(chunks)
  {
    EvidenceReads(chunks);
    c := Chunk(chunks[0].id, chunks[0].order, chunks[0].text + Rest(chunks[1..]));
    EvidenceOfOne(c);
  }

  lemma OtherReadingSplits(c: Chunk, other: seq<Chunk>)
    requires Plain(c) && FromIndex(other) && Evidence(other) == Part(c) && |other| > 1
    ensures exists i: nat :: SplitsAt(c.text, i)
  {
    EvidenceReads(other);
    var o, more := other[0], other[1..];
    var x := o.text + Rest(more);
    FieldIsDetermined(c.id, Line(c.order, c.text), o.id, Line(o.order, x));
    FieldIsDetermined(c.order, c.text, o.order, x);
    var i := |o.text|;
    assert c.text[i..] == Rest(more) == SEPARATOR + Evidence(more);
    assert c.text[i..i + 4] == c.text[i..][..4] && c.text[i + 4..] == c.text[i..][4..];
    EvidenceLooksLikeAPart(more);
    assert SplitsAt(c.text, i);
  }

  lemma OneChunkReadsOneWay(a: Chunk, b: Chunk)
    requires Plain(a) && Plain(b) && Part(a) == Part(b)
    ensures a == b
  {
    FieldIsDetermined(a.id, Line(a.order, a.text), b.id, Line(b.order, b.text));
    FieldIsDetermined(a.order, a.text, b.order, b.text);
  }

  ghost predicate Identified(chunks: seq<Chunk>) {
    forall other :: FromIndex(other) && Evidence(other) == Evidence(chunks) ==> other == chunks
  }

  lemma SingleIsIdentified(c: Chunk)
    requires Plain(c) && forall i: nat :: !SplitsAt(c.text, i)
    ensures Identified([c])
  {
    EvidenceOfOne(c);
    forall other | FromIndex(other) && Evidence(other) == Evidence([c]) ensures other == [c] {
      OnlyEmptyIsEmpty(other);
      OnlyEmptyIsEmpty([c]);
      if |other| > 1 {
        OtherReadingSplits(c, other);
      } else {
        assert other == [other[0]];
        EvidenceOfOne(other[0]);
        OneChunkReadsOneWay(other[0], c);
      }
    }
  }

  // Exactly when the evidence identifies a list among all an index can hold: there are no
  // chunks, or there is one and its text does not spell out the separator
  // before what reads as another.
  lemma IdentifiedIff(chunks: seq<Chunk>)
    requires FromIndex(chunks)
    ensures Identified(chunks) <==> chunks == [] || (|chunks| == 1 && forall i: nat :: !SplitsAt(chunks[0].text, i))
  {
    if chunks == [] {
      forall other | FromIndex(other) && Evidence(other) == Evidence(chunks) ensures other == chunks {
        OnlyEmptyIsEmpty(other);
      }
    } else if |chunks| > 1 {
      var c := ManyChunksHaveATwin(chunks);
      assert FromIndex([c]) && [c] != chunks;
    } else {
      assert chunks == [chunks[0]];
      if i: nat :| SplitsAt(chunks[0].text, i) {
        var other := SplitTextHasATwin(chunks[0], i);
      } else {
        SingleIsIdentified(chunks[0]);
      }
    }
  }
}
