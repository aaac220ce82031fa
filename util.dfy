/**
  Util.ExtractQouted (slngen/Util.cs): splits a command string into its
  words, keeping text between double quotes as one verbatim piece.
*/
module Util {
  import opened Wrappers
  import opened Text

  /**
    What segment i of the split on '"' contributes: a segment at an even index
    lies outside quotes and gives its white-space separated words; a segment at
    an odd index lies inside quotes and is kept whole, even when empty.
  */
  function Piece(segments: seq<string>, i: nat): seq<string>
    requires i < |segments|
  {
    if i % 2 == 0 then Words(segments[i]) else [segments[i]]
  }

  /** The pieces of the first n segments, in order. */
  function Pieces(segments: seq<string>, n: nat): seq<string>
    requires n <= |segments|
  {
    if n == 0 then [] else Pieces(segments, n - 1) + Piece(segments, n - 1)
  }

  lemma PiecesNext(segments: seq<string>, i: nat, piece: seq<string>)
    requires i < |segments|
    requires i % 2 == 0 ==> piece == Words(segments[i])
    requires i % 2 != 0 ==> piece == [segments[i]]
    ensures Pieces(segments, i + 1) == Pieces(segments, i) + piece
  {
  }

  /** The list ExtractQouted returns; None stands for a null string. */
  function Extracted(toExtract: Option<string>): seq<string> {
    if toExtract.None? || toExtract.value == "" then []
    else
      var segments := Split(toExtract.value, '"');
      Pieces(segments, |segments|)
  }

  method ExtractQuoted(toExtract: Option<string>) returns (result: seq<string>)
    ensures result == Extracted(toExtract)
  {
    result := [];
    if toExtract.None? || toExtract.value == "" {
      return;
    }
    var quotedSplit := Split(toExtract.value, '"');
    var i := 0;
    while i < |quotedSplit|
      invariant 0 <= i <= |quotedSplit|
      invariant result == Pieces(quotedSplit, i)
    {
      var piece;
      if i % 2 == 0 {
        piece := Words(quotedSplit[i]);
      } else {
        piece := [quotedSplit[i]];
      }
      PiecesNext(quotedSplit, i, piece);
      result := result + piece;
      i := i + 1;
    }
  }

  /** Input without quotes gives exactly its white-space separated words. */
  lemma UnquotedGivesWords(s: string)
    requires !HasChar(s, '"')
    ensures Extracted(Some(s)) == Words(s)
  {
    if s == "" {
      EmptyHasNoWords();
    } else {
      var segments := Split(s, '"');
      SplitNoSeparator(s, CharIs('"'));
      assert Pieces(segments, 1) == Pieces(segments, 0) + Piece(segments, 0);
    }
  }

  lemma EmptyHasNoWords()
    ensures Words("") == []
  {
    assert SplitWhere("", IsWhiteSpace) == [""];
    assert [""][1..] == [];
    assert RemoveEmpty([""]) == [] + RemoveEmpty([]);
  }

  /**
    A quoted region between two unquoted ones: the words before it, the quoted
    text verbatim (even when empty or containing blanks), then the words after it.
  */
  lemma QuotedIsVerbatim(a: string, q: string, b: string)
    requires !HasChar(a, '"') && !HasChar(q, '"') && !HasChar(b, '"')
    ensures Extracted(Some(a + "\"" + q + "\"" + b)) == Words(a) + [q] + Words(b)
  {
    var segments := Split(a + "\"" + q + "\"" + b, '"');
    SplitTwoQuotes(a, q, b);
    assert Pieces(segments, 1) == Words(a);
    assert Pieces(segments, 2) == Words(a) + [q];
  }

  /** Two quotes cut a string into the three quote-free parts around them. */
  lemma SplitTwoQuotes(a: string, q: string, b: string)
    requires !HasChar(a, '"') && !HasChar(q, '"') && !HasChar(b, '"')
    ensures Split(a + "\"" + q + "\"" + b, '"') == [a, q, b]
  {
    var isSep := CharIs('"');
    assert a + "\"" + q + "\"" + b == a + ['"'] + (q + ['"'] + b);
    SplitAround(a, '"', q + ['"'] + b, isSep);
    SplitAround(q, '"', b, isSep);
    SplitNoSeparator(a, isSep);
    SplitNoSeparator(q, isSep);
    SplitNoSeparator(b, isSep);
  }
}
