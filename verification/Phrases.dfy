/** Recovery phrases over a word list: parsing, encoding and their round trips. */
module Phrases {
  import opened Bytes
  import opened Mnemonic
  import opened Wrappers

  datatype MnemonicError = InvalidWordCount(count: nat) | UnknownWord(word: string) | InvalidChecksum

  datatype Parsed = Entropy(bytes: seq<Byte>) | Rejected(error: MnemonicError)

  // ---- Texts ----

  /** The Unicode White_Space property. */
  predicate IsWhitespace(c: char) {
    var n := c as int;
    || 0x9 <= n <= 0xd || n == 0x20 || n == 0x85 || n == 0xa0 || n == 0x1680 || 0x2000 <= n <= 0x200a
    || n == 0x2028 || n == 0x2029 || n == 0x202f || n == 0x205f || n == 0x3000
  }

  /** The length of the leading run without whitespace. */
  function WordLength(s: string): (n: nat)
    ensures n <= |s| && forall i :: 0 <= i < n ==> !IsWhitespace(s[i])
    ensures n < |s| ==> IsWhitespace(s[n])
  {
    if s == [] || IsWhitespace(s[0]) then 0 else 1 + WordLength(s[1..])
  }

  function Split(s: string): (r: seq<string>)
    decreases |s|
  {
    if s == [] then []
    else if IsWhitespace(s[0]) then Split(s[1..])
    else [s[..WordLength(s)]] + Split(s[WordLength(s)..])
  }

  function Join(words: seq<string>): string {
    if words == [] then ""
    else if |words| == 1 then words[0]
    else words[0] + " " + Join(words[1..])
  }

  predicate IsWord(w: string) {
    w != [] && forall i :: 0 <= i < |w| ==> !IsWhitespace(w[i])
  }

  lemma SplitOne(w: string, rest: string)
    requires IsWord(w) && (rest != [] ==> IsWhitespace(rest[0]))
    ensures Split(w + rest) == [w] + Split(rest)
  {
    var s := w + rest;
    var n := WordLength(s);
    assert forall i :: 0 <= i < |w| ==> s[i] == w[i];
    assert rest != [] ==> s[|w|] == rest[0];
    assert n == |w|;
    assert s[..n] == w && s[n..] == rest;
  }

  lemma {:induction false} SplitJoin(words: seq<string>)
    requires forall i :: 0 <= i < |words| ==> IsWord(words[i])
    ensures Split(Join(words)) == words
  {
    if |words| == 1 {
      SplitOne(words[0], "");
      assert words[0] + "" == words[0];
    } else if |words| > 1 {
      var rest := " " + Join(words[1..]);
      SplitJoin(words[1..]);
      SplitOne(words[0], rest);
      assert rest[1..] == Join(words[1..]);
      assert Join(words) == words[0] + rest;
    }
  }

  // ---- The word list ----

  predicate LexLess(a: string, b: string) {
    b != [] && (a == [] || a[0] < b[0] || (a[0] == b[0] && LexLess(a[1..], b[1..])))
  }

  /** 2048 sorted words without whitespace. */
  ghost predicate GoodList(list: seq<string>) {
    && |list| == 2048
    && (forall i :: 0 <= i < |list| ==> IsWord(list[i]))
    && (forall i, j :: 0 <= i < j < |list| ==> LexLess(list[i], list[j]))
  }

  lemma {:induction false} LexIrreflexive(a: string)
    ensures !LexLess(a, a)
  {
    if a != [] { LexIrreflexive(a[1..]); }
  }

  lemma {:induction false} LexTransitive(a: string, b: string, c: string)
    requires LexLess(a, b) && LexLess(b, c)
    ensures LexLess(a, c)
  {
    if a != [] && a[0] == b[0] == c[0] { LexTransitive(a[1..], b[1..], c[1..]); }
  }

  lemma {:induction false} LexTotal(a: string, b: string)
    ensures a == b || LexLess(a, b) || LexLess(b, a)
  {
    if a != [] && b != [] {
      LexTotal(a[1..], b[1..]);
      assert a == [a[0]] + a[1..] && b == [b[0]] + b[1..];
    }
  }

  /** Binary search: finds the word exactly when the list has it. */
  method WordToIndex(list: seq<string>, word: string) returns (r: Option<nat>)
    requires forall i, j :: 0 <= i < j < |list| ==> LexLess(list[i], list[j])
    ensures r.Some? ==> r.value < |list| && list[r.value] == word
    ensures r.None? ==> word !in list
  {
    var lo, hi := 0, |list|;
    while lo < hi
      invariant 0 <= lo <= hi <= |list|
      invariant forall i :: 0 <= i < lo ==> LexLess(list[i], word)
      invariant forall i :: hi <= i < |list| ==> LexLess(word, list[i])
    {
      var mid := (lo + hi) / 2;
      if list[mid] == word {
        return Some(mid);
      }
      LexTotal(list[mid], word);
      if LexLess(list[mid], word) {
        forall i | 0 <= i < mid ensures LexLess(list[i], word) { LexTransitive(list[i], list[mid], word); }
        lo := mid + 1;
      } else {
        forall i | mid < i < |list| ensures LexLess(word, list[i]) { LexTransitive(word, list[mid], list[i]); }
        hi := mid;
      }
    }
    LexIrreflexive(word);
    return None;
  }

  /** A position of the word, the only one in a sorted list. */
  function IndexOf(list: seq<string>, word: string): (i: nat)
    requires word in list
    ensures i < |list| && list[i] == word
  {
    if list[0] == word then 0 else 1 + IndexOf(list[1..], word)
  }

  lemma IndexUnique(list: seq<string>, i: nat, j: nat)
    requires i < |list| && j < |list| && list[i] == list[j]
    requires forall i, j :: 0 <= i < j < |list| ==> LexLess(list[i], list[j])
    ensures i == j
  {
    LexIrreflexive(list[i]);
  }

  function Indices(list: seq<string>, words: seq<string>): (r: seq<nat>)
    requires forall i :: 0 <= i < |words| ==> words[i] in list
    ensures |r| == |words| && forall i :: 0 <= i < |r| ==> r[i] < |list| && list[r[i]] == words[i]
  {
    if words == [] then [] else [IndexOf(list, words[0])] + Indices(list, words[1..])
  }

  function WordsAt(list: seq<string>, indices: seq<nat>): (r: seq<string>)
    requires forall i :: 0 <= i < |indices| ==> indices[i] < |list|
    ensures |r| == |indices| && forall i :: 0 <= i < |r| ==> r[i] == list[indices[i]]
  {
    if indices == [] then [] else [list[indices[0]]] + WordsAt(list, indices[1..])
  }

  // ---- Phrases and entropy ----

  lemma Widths()
    ensures Pow2(8) == 256 && Pow2(11) == 2048 && Times(24, 11) == 264 && Times(33, 8) == 264
  {
    TimesIsProduct(24, 11);
    TimesIsProduct(33, 8);
  }

  /** The 33 bytes that 24 indices stand for. */
  function BytesOf(indices: seq<nat>): (r: seq<Byte>)
    requires |indices| == 24
    ensures |r| == 33
  {
    Widths();
    FlattenUnpack(Flatten(indices, 11), 8, 33);
    Unpack(Flatten(indices, 11), 8)
  }

  /** The 24 indices that 33 bytes stand for. */
  function IndicesOf(bytes: seq<Byte>): (r: seq<nat>)
    requires |bytes| == 33
    ensures |r| == 24 && forall i :: 0 <= i < 24 ==> r[i] < 2048
  {
    Widths();
    FlattenUnpack(Flatten(bytes, 8), 11, 24);
    Unpack(Flatten(bytes, 8), 11)
  }

  /** The two repackings undo each other. */
  lemma RepackRoundTrips(bytes: seq<Byte>, indices: seq<nat>)
    requires |bytes| == 33 && |indices| == 24 && forall i :: 0 <= i < 24 ==> indices[i] < 2048
    ensures BytesOf(IndicesOf(bytes)) == bytes
    ensures IndicesOf(BytesOf(indices)) == indices
  {
    Widths();
    FlattenUnpack(Flatten(bytes, 8), 11, 24);
    UnpackFlatten(bytes, 8);
    FlattenUnpack(Flatten(indices, 11), 8, 33);
    UnpackFlatten(indices, 11);
  }

  /** The first word that is not in the list. */
  function FirstUnknown(list: seq<string>, words: seq<string>): (r: Option<string>)
    ensures r.None? <==> forall i :: 0 <= i < |words| ==> words[i] in list
  {
    if words == [] then None
    else if words[0] !in list then Some(words[0])
    else assert words == [words[0]] + words[1..]; FirstUnknown(list, words[1..])
  }

  /** `sha` gives the first byte of the SHA-256 digest. */
  function Parse(list: seq<string>, sha: seq<Byte> -> Byte, phrase: string): Parsed {
    var words := Split(phrase);
    if |words| != 24 then Rejected(InvalidWordCount(|words|))
    else match FirstUnknown(list, words)
      case Some(w) => Rejected(UnknownWord(w))
      case None =>
        var bytes := BytesOf(Indices(list, words));
        if sha(bytes[..32]) != bytes[32] then Rejected(InvalidChecksum) else Entropy(bytes[..32])
  }

  function Phrase(list: seq<string>, sha: seq<Byte> -> Byte, entropy: seq<Byte>): string
    requires |list| == 2048 && |entropy| == 32
  {
    Join(WordsAt(list, IndicesOf(entropy + [sha(entropy)])))
  }

  method ParseMnemonicPhrase(list: seq<string>, sha: seq<Byte> -> Byte, phrase: string) returns (r: Parsed)
    requires GoodList(list)
    ensures r == Parse(list, sha, phrase)
  {
    var words := Split(phrase);
    if |words| != 24 {
      return Rejected(InvalidWordCount(|words|));
    }
    var indices: seq<nat> := [];
    for i := 0 to 24
      invariant |indices| == i
      invariant forall k :: 0 <= k < i ==> words[k] in list && indices[k] == IndexOf(list, words[k])
    {
      var index := WordToIndex(list, words[i]);
      if index.None? {
        UnknownAt(list, words, i);
        return Rejected(UnknownWord(words[i]));
      }
      IndexUnique(list, index.value, IndexOf(list, words[i]));
      indices := indices + [index.value];
    }
    assert indices == Indices(list, words) by { SameIndices(list, words, indices); }
    Widths();
    FlattenUnpack(Flatten(indices, 11), 8, 33);
    var bits := WriteBits(indices, 11);
    var bytes: seq<Byte> := ReadValues(bits, 8, 33);
    if sha(bytes[..32]) != bytes[32] {
      return Rejected(InvalidChecksum);
    }
    r := Entropy(bytes[..32]);
  }

  lemma {:induction false} UnknownAt(list: seq<string>, words: seq<string>, i: nat)
    requires i < |words| && words[i] !in list && forall k :: 0 <= k < i ==> words[k] in list
    ensures FirstUnknown(list, words) == Some(words[i])
  {
    if i > 0 { UnknownAt(list, words[1..], i - 1); }
  }

  lemma SameIndices(list: seq<string>, words: seq<string>, indices: seq<nat>)
    requires |indices| == |words| && forall i, j :: 0 <= i < j < |list| ==> LexLess(list[i], list[j])
    requires forall k :: 0 <= k < |words| ==> words[k] in list && indices[k] == IndexOf(list, words[k])
    ensures indices == Indices(list, words)
  {
    var r := Indices(list, words);
    forall k | 0 <= k < |words| ensures r[k] == indices[k] { IndexUnique(list, r[k], indices[k]); }
  }

  method EntropyToMnemonic(list: seq<string>, sha: seq<Byte> -> Byte, entropy: seq<Byte>) returns (phrase: string)
    requires |list| == 2048 && |entropy| == 32
    ensures phrase == Phrase(list, sha, entropy)
  {
    var indices := ToIndices(entropy + [sha(entropy)]);
    var words := PickWords(list, indices);
    phrase := Join(words);
  }

  /** Through the bit array, from 33 bytes to 24 indices. */
  method ToIndices(bytes: seq<Byte>) returns (indices: seq<nat>)
    requires |bytes| == 33
    ensures indices == IndicesOf(bytes)
  {
    Widths();
    var bits := WriteBits(bytes, 8);
    indices := ReadValues(bits, 11, 24);
  }

  method PickWords(list: seq<string>, indices: seq<nat>) returns (words: seq<string>)
    requires forall i :: 0 <= i < |indices| ==> indices[i] < |list|
    ensures words == WordsAt(list, indices)
  {
    words := [];
    for i := 0 to |indices|
      invariant |words| == i && forall k :: 0 <= k < i ==> words[k] == list[indices[k]]
    {
      words := words + [list[indices[i]]];
    }
  }

  // ---- Round trips ----

  lemma IndicesOfWords(list: seq<string>, indices: seq<nat>)
    requires GoodList(list) && forall i :: 0 <= i < |indices| ==> indices[i] < |list|
    ensures var words := WordsAt(list, indices);
      && (forall i :: 0 <= i < |words| ==> words[i] in list)
      && Indices(list, words) == indices
  {
    var words := WordsAt(list, indices);
    forall i | 0 <= i < |words| ensures words[i] in list { assert list[indices[i]] in list; }
    var r := Indices(list, words);
    forall i | 0 <= i < |words| ensures r[i] == indices[i] { IndexUnique(list, r[i], indices[i]); }
  }

  /** Parsing the phrase of any 256-bit entropy gives it back. */
  lemma ParseOfPhrase(list: seq<string>, sha: seq<Byte> -> Byte, entropy: seq<Byte>)
    requires GoodList(list) && |entropy| == 32
    ensures Parse(list, sha, Phrase(list, sha, entropy)) == Entropy(entropy)
  {
    var bytes := entropy + [sha(entropy)];
    var indices := IndicesOf(bytes);
    var words := WordsAt(list, indices);
    IndicesOfWords(list, indices);
    SplitJoin(words);
    RepackRoundTrips(bytes, indices);
    assert bytes[..32] == entropy;
  }

  lemma WordsOfIndices(list: seq<string>, words: seq<string>)
    requires forall i :: 0 <= i < |words| ==> words[i] in list
    ensures WordsAt(list, Indices(list, words)) == words
  {
  }

  /** Any accepted phrase re-encodes to the same 24 words: it is the phrase of its entropy, up to the spacing. */
  lemma PhraseOfParse(list: seq<string>, sha: seq<Byte> -> Byte, phrase: string)
    requires GoodList(list) && Parse(list, sha, phrase).Entropy?
    ensures var entropy := Parse(list, sha, phrase).bytes;
      && |entropy| == 32 && |Split(phrase)| == 24
      && Split(Phrase(list, sha, entropy)) == Split(phrase)
      && Phrase(list, sha, entropy) == Join(Split(phrase))
  {
    var words := Split(phrase);
    var indices := Indices(list, words);
    var bytes := BytesOf(indices);
    RepackRoundTrips(bytes, indices);
    assert bytes == bytes[..32] + [bytes[32]];
    WordsOfIndices(list, words);
    SplitJoin(words);
  }
}
