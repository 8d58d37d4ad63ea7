/** Playlist titles, 500-track chunks and chunk keys of the Yandex Music import. */
module Playlists {
  import opened Lists
  import opened Arithmetic

  const PLAYLIST_NAME: string := "Yandex Music"
  const PLAYLIST_TRACK_LIMIT: nat := 500

  // ---- Decimal numbers

  function DigitChar(d: nat): (c: char)
    requires d < 10
    ensures '0' <= c <= '9'
  {
    (d + '0' as int) as char
  }

  function DigitValue(c: char): (d: nat)
    requires '0' <= c <= '9'
    ensures d < 10 && DigitChar(d) == c
  {
    c as int - '0' as int
  }

  function Decimal(n: nat): (r: string)
    ensures r != []
  {
    if n < 10 then [DigitChar(n)] else Decimal(n / 10) + [DigitChar(n % 10)]
  }

  predicate AllDigits(s: string) {
    forall i :: 0 <= i < |s| ==> '0' <= s[i] <= '9'
  }

  /** parseInt on a run of digits. */
  function ParseDigits(s: string): nat
    requires AllDigits(s)
  {
    if s == [] then 0 else 10 * ParseDigits(s[..|s| - 1]) + DigitValue(s[|s| - 1])
  }

  function Zeros(k: nat): (r: string)
    ensures |r| == k
  {
    seq(k, _ => '0')
  }

  lemma {:induction false} DecimalParses(n: nat)
    ensures AllDigits(Decimal(n)) && ParseDigits(Decimal(n)) == n
  {
    if n >= 10 {
      DecimalParses(n / 10);
      assert Decimal(n)[..|Decimal(n)| - 1] == Decimal(n / 10);
    } else {
      assert Decimal(n)[..0] == [];
    }
  }

  lemma {:induction false} LeadingZeros(k: nat, s: string)
    requires AllDigits(s)
    ensures AllDigits(Zeros(k) + s) && ParseDigits(Zeros(k) + s) == ParseDigits(s)
    decreases k + |s|
  {
    var z := Zeros(k) + s;
    if s != [] {
      LeadingZeros(k, s[..|s| - 1]);
      assert z[..|z| - 1] == Zeros(k) + s[..|s| - 1];
    } else if k > 0 {
      LeadingZeros(k - 1, s);
      assert z[..|z| - 1] == Zeros(k - 1) + s;
    }
  }

  /** Digits read as v are the decimal form of v, possibly with zeros in front. */
  lemma {:induction false} ParsedFromDecimal(s: string) returns (k: nat)
    requires AllDigits(s) && ParseDigits(s) > 0
    ensures s == Zeros(k) + Decimal(ParseDigits(s))
  {
    var front, last := s[..|s| - 1], DigitValue(s[|s| - 1]);
    var v := ParseDigits(s);
    assert v == 10 * ParseDigits(front) + last;
    if ParseDigits(front) == 0 {
      ZeroIsZeros(front);
      k := |front|;
      assert Decimal(v) == [DigitChar(last)];
    } else {
      k := ParsedFromDecimal(front);
      assert v / 10 == ParseDigits(front) && v % 10 == last;
      assert s == front + [s[|s| - 1]];
    }
  }

  lemma {:induction false} ZeroIsZeros(s: string)
    requires AllDigits(s) && ParseDigits(s) == 0
    ensures s == Zeros(|s|)
  {
    if s != [] {
      var n := |s| - 1;
      assert ParseDigits(s[..n]) == 0 && DigitValue(s[n]) == 0;
      assert s[n] == DigitChar(0);
      ZeroIsZeros(s[..n]);
      assert s == s[..|s| - 1] + [s[|s| - 1]];
    }
  }

  // ---- Titles

  function GetPlaylistName(index: nat): string {
    if index == 0 then PLAYLIST_NAME else PLAYLIST_NAME + " " + Decimal(index + 1)
  }

  const NUMBERED: string := PLAYLIST_NAME + " "

  /** The digits after "Yandex Music ", if that is all there is. */
  function Suffix(title: string): Option<string> {
    if |title| > |NUMBERED| && title[..|NUMBERED|] == NUMBERED && AllDigits(title[|NUMBERED|..])
    then Some(title[|NUMBERED|..]) else None
  }

  function GetPlaylistChunkIndex(title: string): Option<nat> {
    if title == PLAYLIST_NAME then Some(0)
    else if Suffix(title).None? then None
    else
      var parsed := ParseDigits(Suffix(title).value);
      if parsed >= 2 then Some(parsed - 1) else None
  }

  lemma NumberedSuffix(digits: string)
    requires digits != [] && AllDigits(digits)
    ensures Suffix(NUMBERED + digits) == Some(digits)
    ensures NUMBERED + digits != PLAYLIST_NAME
  {
    var t := NUMBERED + digits;
    assert t[..|NUMBERED|] == NUMBERED && t[|NUMBERED|..] == digits;
  }

  /** Names read back as their index, so no two chunks share a name. */
  lemma NameRoundTrips(index: nat)
    ensures GetPlaylistChunkIndex(GetPlaylistName(index)) == Some(index)
  {
    if index > 0 {
      DecimalParses(index + 1);
      NumberedSuffix(Decimal(index + 1));
    }
  }

  lemma NamesDistinct(i: nat, j: nat)
    requires GetPlaylistName(i) == GetPlaylistName(j)
    ensures i == j
  {
    NameRoundTrips(i);
    NameRoundTrips(j);
  }

  /** The titles taken for chunk i: its own name, and for numbered chunks that name with zeros before the number. */
  lemma TitlesOfIndex(title: string, index: nat)
    ensures GetPlaylistChunkIndex(title) == Some(index) <==>
      if index == 0 then title == PLAYLIST_NAME
      else exists k: nat :: title == NUMBERED + (Zeros(k) + Decimal(index + 1))
  {
    if index == 0 {
      NameRoundTrips(0);
    } else {
      if GetPlaylistChunkIndex(title) == Some(index) {
        var k := PaddedName(title, index);
      }
      if k: nat :| title == NUMBERED + (Zeros(k) + Decimal(index + 1)) {
        PaddedNameReads(k, index);
      }
    }
  }

  lemma PaddedName(title: string, index: nat) returns (k: nat)
    requires index > 0 && GetPlaylistChunkIndex(title) == Some(index)
    ensures title == NUMBERED + (Zeros(k) + Decimal(index + 1))
  {
    var digits := Suffix(title).value;
    assert title == title[..|NUMBERED|] + title[|NUMBERED|..];
    k := ParsedFromDecimal(digits);
  }

  lemma PaddedNameReads(k: nat, index: nat)
    requires index > 0
    ensures GetPlaylistChunkIndex(NUMBERED + (Zeros(k) + Decimal(index + 1))) == Some(index)
  {
    DecimalParses(index + 1);
    LeadingZeros(k, Decimal(index + 1));
    NumberedSuffix(Zeros(k) + Decimal(index + 1));
  }

  // ---- Chunks

  function Chunks<T>(items: seq<T>, size: nat): seq<seq<T>>
    requires size > 0
    decreases |items|
  {
    if items == [] then []
    else if |items| <= size then [items]
    else [items[..size]] + Chunks(items[size..], size)
  }

  function CeilDiv(n: nat, size: nat): nat
    requires size > 0
  {
    (n + size - 1) / size
  }

  lemma {:induction false} ChunksFlatten<T>(items: seq<T>, size: nat)
    requires size > 0
    ensures Flatten(Chunks(items, size)) == items
    decreases |items|
  {
    if |items| > size {
      ChunksFlatten(items[size..], size);
      FlattenCons(items[..size], Chunks(items[size..], size));
      assert items[..size] + items[size..] == items;
    } else if items != [] {
      FlattenCons(items, []);
      assert [items] + [] == [items];
    }
  }

  /** Every chunk is full but the last, which is not empty; there are ceil(n / size). */
  lemma {:induction false} ChunkSizes<T>(items: seq<T>, size: nat)
    requires size > 0
    ensures |Chunks(items, size)| == CeilDiv(|items|, size)
    ensures forall i :: 0 <= i < |Chunks(items, size)| - 1 ==> |Chunks(items, size)[i]| == size
    ensures forall i :: 0 <= i < |Chunks(items, size)| ==> 1 <= |Chunks(items, size)[i]| <= size
    decreases |items|
  {
    if |items| > size {
      ChunkSizes(items[size..], size);
      CeilStep(|items|, size);
    } else if items != [] {
      CeilOne(|items|, size);
    } else {
      CeilZero(size);
    }
  }

  lemma CeilStep(n: nat, size: nat)
    requires n > size > 0
    ensures CeilDiv(n, size) == 1 + CeilDiv(n - size, size)
  {
    DivPlus(n - 1, size);
  }

  lemma CeilOne(n: nat, size: nat)
    requires 0 < n <= size
    ensures CeilDiv(n, size) == 1
  {
    DivModUnique(n + size - 1, 1, n - 1, size);
  }

  lemma CeilZero(size: nat)
    requires size > 0
    ensures CeilDiv(0, size) == 0
  {
    DivModUnique(size - 1, 0, size - 1, size);
  }

  /** chunkArray: a slice every size items. */
  method ChunkArray<T>(items: seq<T>, size: nat) returns (chunks: seq<seq<T>>)
    requires size > 0
    ensures chunks == Chunks(items, size)
    ensures Flatten(chunks) == items && |chunks| == CeilDiv(|items|, size)
  {
    chunks := [];
    var i := 0;
    while i < |items|
      invariant 0 <= i
      invariant Chunked(items, size, chunks, i)
      decreases |items| - i
    {
      var end := if i + size < |items| then i + size else |items|;
      ChunkedNext(items, size, chunks, i, end);
      chunks := chunks + [items[i..end]];
      i := i + size;
    }
    assert chunks + [] == chunks;
    ChunksFlatten(items, size);
    ChunkSizes(items, size);
  }

  /** The chunks cut so far, with those of the items from position i on, are all. */
  ghost predicate Chunked<T>(items: seq<T>, size: nat, chunks: seq<seq<T>>, i: nat)
    requires size > 0
  {
    chunks + Chunks(From(items, i), size) == Chunks(items, size)
  }

  lemma ChunkedNext<T>(items: seq<T>, size: nat, chunks: seq<seq<T>>, i: nat, end: nat)
    requires size > 0 && i < |items| && end == (if i + size < |items| then i + size else |items|)
    requires Chunked(items, size, chunks, i)
    ensures Chunked(items, size, chunks + [items[i..end]], i + size)
  {
    ChunkStep(items, i, size);
    Regroup(chunks, [items[i..end]], Chunks(From(items, i + size), size));
  }

  /** The items from position i on; none past the end. */
  function From<T>(items: seq<T>, i: nat): seq<T> {
    if i < |items| then items[i..] else []
  }

  lemma ChunkStep<T>(items: seq<T>, i: nat, size: nat)
    requires i < |items| && size > 0
    ensures
      var end := if i + size < |items| then i + size else |items|;
      Chunks(From(items, i), size) == [items[i..end]] + Chunks(From(items, i + size), size)
  {
    var rest := items[i..];
    if i + size < |items| {
      assert rest[..size] == items[i..i + size] && rest[size..] == items[i + size..];
    } else {
      assert items[i..|items|] == rest && [rest] + [] == [rest];
    }
  }

  // ---- Chunk keys

  const NUL: char := '\U{0}'

  /** join with NUL. */
  function Join(urns: seq<string>): string {
    if urns == [] then []
    else if |urns| == 1 then urns[0]
    else urns[0] + [NUL] + Join(urns[1..])
  }

  predicate Clean(urns: seq<string>) {
    urns != [] && forall u :: u in urns ==> NUL !in u
  }

  /** Equal keys mean equal chunks, as long as no urn contains the separator. */
  lemma {:induction false} JoinInjective(a: seq<string>, b: seq<string>)
    requires Clean(a) && Clean(b) && Join(a) == Join(b)
    ensures a == b
    decreases |a|
  {
    JoinSplits(a);
    JoinSplits(b);
    FirstField(NUL, Head(a), Tail(a), Head(b), Tail(b));
    if |a| > 1 {
      assert |b| > 1;
      assert Join(a[1..]) == Tail(a)[1..] && Join(b[1..]) == Tail(b)[1..];
      JoinInjective(a[1..], b[1..]);
      assert a == [a[0]] + a[1..] && b == [b[0]] + b[1..];
    }
  }

  function Head(a: seq<string>): string requires a != [] { a[0] }

  /** What follows the first urn in the key: nothing, or NUL and the rest. */
  function Tail(a: seq<string>): string requires a != [] {
    if |a| == 1 then [] else [NUL] + Join(a[1..])
  }

  lemma JoinSplits(a: seq<string>)
    requires a != []
    ensures Join(a) == Head(a) + Tail(a)
  {
  }
}
