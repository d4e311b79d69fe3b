/** Paging an inverted index into ciphertexts, searching it blindly, and reading the answer back. */
module EncryptedIndexes {
  import opened Fhe
  import opened InvertedIndexes
  import opened Numbers

  datatype EncryptedPage = EncryptedPage(ciphertext: Ciphertext, slotCount: nat)

  datatype EncryptedIndex = EncryptedIndex(
    slots: nat, termPages: seq<EncryptedPage>, pageCount: nat, termCount: nat, docCount: nat)

  /** The hashes cut into pages of `n`, the last page possibly short. */
  function Pages(hashes: seq<nat>, n: nat): (pages: seq<EncryptedPage>)
    requires n > 0
  {
    if hashes == [] then []
    else
      var k := Min(n, |hashes|);
      [EncryptedPage(Packed(hashes[..k], n), k)] + Pages(hashes[k..], n)
  }

  method BuildEncryptedIndex(idx: InvertedIndex, n: nat) returns (enc: EncryptedIndex, hashes: seq<nat>)
    requires idx.Valid() && n > 0
    ensures Distinct(hashes) && forall h :: h in hashes <==> h in idx.terms
    ensures enc.termPages == Pages(hashes, n) && enc.slots == n && enc.pageCount == |enc.termPages|
    ensures enc.termCount == |idx.terms| && enc.docCount == |idx.documents|
  {
    hashes := idx.TermHashes();
    var pages := EncryptPages(hashes, n);
    enc := EncryptedIndex(n, pages, |pages|, |idx.terms|, |idx.documents|);
  }

  /** The pages still to come once the hashes before `i` are paged. */
  function PagesFrom(hashes: seq<nat>, n: nat, i: nat): (pages: seq<EncryptedPage>)
    requires n > 0
  {
    if i < |hashes| then Pages(hashes[i..], n) else []
  }

  ghost predicate PagedBefore(hashes: seq<nat>, n: nat, i: nat, pages: seq<EncryptedPage>)
    requires n > 0
  {
    pages + PagesFrom(hashes, n, i) == Pages(hashes, n)
  }

  lemma PagingStarts(hashes: seq<nat>, n: nat)
    requires n > 0
    ensures PagedBefore(hashes, n, 0, [])
  {
    assert hashes[0..] == hashes;
  }

  lemma PagesFromStep(hashes: seq<nat>, n: nat, i: nat, page: EncryptedPage)
    requires n > 0 && i < |hashes|
    requires page == EncryptedPage(Packed(hashes[i..Min(i + n, |hashes|)], n), Min(i + n, |hashes|) - i)
    ensures PagesFrom(hashes, n, i) == [page] + PagesFrom(hashes, n, i + n)
  {
    var end := Min(i + n, |hashes|);
    assert hashes[i..][..end - i] == hashes[i..end];
    assert hashes[i..][end - i..] == hashes[end..];
    assert Pages(hashes[i..], n) == [page] + Pages(hashes[end..], n);
    if end == |hashes| {
      assert hashes[end..] == [];
    }
  }

  lemma PageAdded(hashes: seq<nat>, n: nat, i: nat, pages: seq<EncryptedPage>, page: EncryptedPage)
    requires n > 0 && i < |hashes| && PagedBefore(hashes, n, i, pages)
    requires page == EncryptedPage(Packed(hashes[i..Min(i + n, |hashes|)], n), Min(i + n, |hashes|) - i)
    ensures PagedBefore(hashes, n, i + n, pages + [page])
  {
    PagesFromStep(hashes, n, i, page);
    assert pages + ([page] + PagesFrom(hashes, n, i + n)) == pages + [page] + PagesFrom(hashes, n, i + n);
  }

  /** The loop of BuildEncryptedIndex, one page a turn. */
  method EncryptPages(hashes: seq<nat>, n: nat) returns (pages: seq<EncryptedPage>)
    requires n > 0
    ensures pages == Pages(hashes, n)
  {
    pages := [];
    PagingStarts(hashes, n);
    var i := 0;
    while i < |hashes|
      invariant 0 <= i && PagedBefore(hashes, n, i, pages)
      decreases |hashes| - i
    {
      var end := i + n;
      if end > |hashes| {
        end := |hashes|;
      }
      var page := hashes[i..end];
      var ct := EncryptTermPage(page, n);
      PageAdded(hashes, n, i, pages, EncryptedPage(ct, |page|));
      pages := pages + [EncryptedPage(ct, |page|)];
      i := i + n;
    }
  }

  method EncryptedQuery(lex: Lexicon, term: string, enc: EncryptedIndex) returns (ct: Ciphertext)
    ensures ct == Replicated(HashTerm(lex, term), enc.slots)
  {
    ct := EncryptSingleTerm(HashTerm(lex, term), enc.slots);
  }

  ghost predicate SameSlots(query: Ciphertext, pages: seq<EncryptedPage>) {
    forall i :: 0 <= i < |pages| ==> |pages[i].ciphertext| == |query|
  }

  function Evaluated(query: Ciphertext, pages: seq<EncryptedPage>): (results: seq<Ciphertext>)
    requires SameSlots(query, pages)
    ensures |results| == |pages|
  {
    seq(|pages|, i requires 0 <= i < |pages| && |query| == |pages[i].ciphertext| =>
      EvaluateMatch(query, pages[i].ciphertext))
  }

  method DelegatedEvaluate(query: Ciphertext, enc: EncryptedIndex) returns (results: seq<Ciphertext>)
    requires SameSlots(query, enc.termPages)
    ensures results == Evaluated(query, enc.termPages)
  {
    results := [];
    for i := 0 to |enc.termPages|
      invariant |results| == i
      invariant forall k :: 0 <= k < i ==> results[k] == EvaluateMatch(query, enc.termPages[k].ciphertext)
    {
      results := results + [EvaluateMatch(query, enc.termPages[i].ciphertext)];
    }
  }

  /** The positions of the marks, counted from `offset`. */
  function Marked(marks: seq<bool>, offset: nat): (positions: seq<nat>) {
    if marks == [] then []
    else Marked(marks[..|marks| - 1], offset) + (if marks[|marks| - 1] then [offset + |marks| - 1] else [])
  }

  /** The marked positions of every page in turn, each page counted after the active slots of those before it. */
  function Decrypted(results: seq<Ciphertext>, pages: seq<EncryptedPage>, offset: nat): (positions: seq<nat>)
    requires |results| <= |pages|
  {
    if results == [] then []
    else
      Marked(MatchVector(results[0], pages[0].slotCount), offset)
      + Decrypted(results[1..], pages[1..], offset + pages[0].slotCount)
  }

  method CollectMarks(marks: seq<bool>, offset: nat, found: seq<nat>) returns (r: seq<nat>)
    ensures r == found + Marked(marks, offset)
  {
    r := found;
    for j := 0 to |marks|
      invariant r == found + Marked(marks[..j], offset)
    {
      assert marks[..j + 1][..j] == marks[..j];
      if marks[j] {
        r := r + [offset + j];
      }
    }
    assert marks[..|marks|] == marks;
  }

  method DecryptResults(results: seq<Ciphertext>, enc: EncryptedIndex) returns (matched: seq<nat>)
    requires |results| <= |enc.termPages|
    ensures matched == Decrypted(results, enc.termPages, 0)
  {
    matched := [];
    var offset := 0;
    for i := 0 to |results|
      invariant matched + Decrypted(results[i..], enc.termPages[i..], offset) == Decrypted(results, enc.termPages, 0)
    {
      var active := enc.termPages[i].slotCount;
      var marks := DecryptMatchVector(results[i], active);
      assert results[i..][1..] == results[i + 1..] && enc.termPages[i..][1..] == enc.termPages[i + 1..];
      matched := CollectMarks(marks, offset, matched);
      offset := offset + active;
    }
  }

  // ----------------------------------------------------------- correctness

  /** The reference answer: where `h` occurs among the hashes, counted from `offset`. */
  function Positions(hashes: seq<nat>, h: nat, offset: nat): (positions: seq<nat>) {
    if hashes == [] then []
    else (if hashes[0] == h then [offset] else []) + Positions(hashes[1..], h, offset + 1)
  }

  lemma {:induction false} PositionsSplit(a: seq<nat>, b: seq<nat>, h: nat, offset: nat)
    ensures Positions(a + b, h, offset) == Positions(a, h, offset) + Positions(b, h, offset + |a|)
  {
    if a == [] {
      assert a + b == b;
    } else {
      assert (a + b)[1..] == a[1..] + b;
      PositionsSplit(a[1..], b, h, offset + 1);
      Regrouped(if a[0] == h then [offset] else [], Positions(a[1..], h, offset + 1), Positions(b, h, offset + |a|));
    }
  }

  lemma PositionsSplitAt(hashes: seq<nat>, k: nat, h: nat, offset: nat)
    requires k <= |hashes|
    ensures Positions(hashes, h, offset) == Positions(hashes[..k], h, offset) + Positions(hashes[k..], h, offset + k)
  {
    assert hashes == hashes[..k] + hashes[k..];
    PositionsSplit(hashes[..k], hashes[k..], h, offset);
  }

  lemma LastPosition(hashes: seq<nat>, h: nat, offset: nat)
    requires hashes != []
    ensures var n := |hashes| - 1;
      Positions(hashes, h, offset)
      == Positions(hashes[..n], h, offset) + (if hashes[n] == h then [offset + n] else [])
  {
    var n := |hashes| - 1;
    PositionsSplitAt(hashes, n, h, offset);
    assert hashes[n..] == [hashes[n]];
  }

  lemma Regrouped(x: seq<nat>, y: seq<nat>, z: seq<nat>)
    ensures x + (y + z) == (x + y) + z
  {
  }

  /** Exactly the occurrences, in increasing order. */
  lemma {:induction false} PositionsAreOccurrences(hashes: seq<nat>, h: nat, offset: nat)
    ensures forall p :: (p in Positions(hashes, h, offset)
                         <==> offset <= p < offset + |hashes| && hashes[p - offset] == h)
    ensures Increasing(Positions(hashes, h, offset))
  {
    if hashes != [] {
      var rest := Positions(hashes[1..], h, offset + 1);
      PositionsAreOccurrences(hashes[1..], h, offset + 1);
      assert forall i :: 0 <= i < |rest| ==> rest[i] in rest;
    }
  }

  lemma {:induction false} MarkedPositions(marks: seq<bool>, hashes: seq<nat>, h: nat, offset: nat)
    requires |marks| == |hashes| && forall i :: 0 <= i < |marks| ==> marks[i] == (hashes[i] == h)
    ensures Marked(marks, offset) == Positions(hashes, h, offset)
  {
    if marks != [] {
      var n := |marks| - 1;
      MarkedPositions(marks[..n], hashes[..n], h, offset);
      LastPosition(hashes, h, offset);
      assert Marked(marks, offset) == Marked(marks[..n], offset) + (if marks[n] then [offset + n] else []);
    }
  }

  ghost predicate AllHashes(hashes: seq<nat>) {
    forall i :: 0 <= i < |hashes| ==> hashes[i] < T
  }

  lemma DecryptedStep(q: Ciphertext, page: EncryptedPage, rest: seq<EncryptedPage>, offset: nat)
    requires |page.ciphertext| == |q| && SameSlots(q, rest)
    ensures SameSlots(q, [page] + rest)
    ensures Decrypted(Evaluated(q, [page] + rest), [page] + rest, offset)
         == Marked(MatchVector(EvaluateMatch(q, page.ciphertext), page.slotCount), offset)
            + Decrypted(Evaluated(q, rest), rest, offset + page.slotCount)
  {
    assert ([page] + rest)[1..] == rest;
    assert Evaluated(q, [page] + rest)[1..] == Evaluated(q, rest);
  }

  lemma FirstPage(h: nat, hashes: seq<nat>, n: nat, offset: nat)
    requires h < T && |hashes| <= n && AllHashes(hashes)
    ensures Marked(MatchVector(EvaluateMatch(Replicated(h, n), Packed(hashes, n)), |hashes|), offset)
         == Positions(hashes, h, offset)
  {
    MatchIsEquality(h, hashes, n);
    MarkedPositions(MatchVector(EvaluateMatch(Replicated(h, n), Packed(hashes, n)), |hashes|), hashes, h, offset);
  }

  /** Searching the pages for `h` and reading the answer back, counted from `offset`, gives `positions`. */
  ghost predicate ReadsBack(h: nat, n: nat, pages: seq<EncryptedPage>, offset: nat, positions: seq<nat>) {
    && SameSlots(Replicated(h, n), pages)
    && Decrypted(Evaluated(Replicated(h, n), pages), pages, offset) == positions
  }

  /** Putting one page in front of pages already read back. */
  lemma OnePage(h: nat, n: nat, page: EncryptedPage, rest: seq<EncryptedPage>, offset: nat, here: seq<nat>,
                there: seq<nat>)
    requires |page.ciphertext| == n
    requires here == Marked(MatchVector(EvaluateMatch(Replicated(h, n), page.ciphertext), page.slotCount), offset)
    requires ReadsBack(h, n, rest, offset + page.slotCount, there)
    ensures ReadsBack(h, n, [page] + rest, offset, here + there)
  {
    DecryptedStep(Replicated(h, n), page, rest, offset);
  }

  /**
   The round trip across all pages: evaluating a replicated hash against the pages and decrypting yields exactly
   where the hash occurs among those paged; no padding slot is reported, not even for a hash of zero.
   */
  lemma {:induction false} BlindSearchIsExact(h: nat, hashes: seq<nat>, n: nat, offset: nat)
    requires n > 0 && h < T && AllHashes(hashes)
    ensures ReadsBack(h, n, Pages(hashes, n), offset, Positions(hashes, h, offset))
  {
    if hashes != [] {
      var k := Min(n, |hashes|);
      var first, later := hashes[..k], hashes[k..];
      BlindSearchIsExact(h, later, n, offset + k);
      FirstPage(h, first, n, offset);
      OnePage(h, n, EncryptedPage(Packed(first, n), k), Pages(later, n), offset, Positions(first, h, offset),
              Positions(later, h, offset + k));
      PositionsSplitAt(hashes, k, h, offset);
    }
  }

  /** Every hash in use comes from HashTerm, so all of them are below T. */
  lemma ListedHashesAreBelowT(lex: Lexicon, added: seq<string>, h: nat)
    requires PostingList(lex, added, h) != []
    ensures h < T
  {
    PostingListIsExact(lex, added, h);
    assert PostingList(lex, added, h)[0] in PostingList(lex, added, h);
  }

  lemma TermHashesAreBelowT(lex: Lexicon, terms: Postings, added: seq<string>, hashes: seq<nat>)
    requires Represents(lex, terms, added) && forall h :: h in hashes ==> h in terms
    ensures AllHashes(hashes)
  {
    forall i | 0 <= i < |hashes|
      ensures hashes[i] < T
    {
      assert hashes[i] in hashes && hashes[i] in terms;
      ListedHashesAreBelowT(lex, added, hashes[i]);
    }
  }

  /** `found` names exactly where `h` occurs among the hashes. */
  ghost predicate Locates(found: seq<nat>, hashes: seq<nat>, h: nat) {
    forall p :: p in found <==> 0 <= p < |hashes| && hashes[p] == h
  }

  /**
   Encrypted search agrees with plaintext search: on the snapshot the pages were built from, a term is reported at
   exactly the positions of its hash, that is at one position if a plaintext query finds documents and nowhere
   otherwise.
   */
  lemma EncryptedSearchAgrees(lex: Lexicon, terms: Postings, added: seq<string>, hashes: seq<nat>, h: nat, n: nat)
    requires n > 0 && h < T && Represents(lex, terms, added)
    requires Distinct(hashes) && forall x :: x in hashes <==> x in terms
    ensures SameSlots(Replicated(h, n), Pages(hashes, n))
    ensures var found := Decrypted(Evaluated(Replicated(h, n), Pages(hashes, n)), Pages(hashes, n), 0);
      Locates(found, hashes, h) && |found| == (if PostingList(lex, added, h) != [] then 1 else 0)
  {
    TermHashesAreBelowT(lex, terms, added, hashes);
    BlindSearchIsExact(h, hashes, n, 0);
    PositionsLocate(hashes, h);
    assert h in terms <==> PostingList(lex, added, h) != [];
  }

  lemma PositionsLocate(hashes: seq<nat>, h: nat)
    requires Distinct(hashes)
    ensures Locates(Positions(hashes, h, 0), hashes, h)
    ensures |Positions(hashes, h, 0)| == (if h in hashes then 1 else 0)
  {
    PositionsAreOccurrences(hashes, h, 0);
    OneOccurrence(Positions(hashes, h, 0), hashes, h);
  }

  lemma OneOccurrence(found: seq<nat>, hashes: seq<nat>, h: nat)
    requires Distinct(hashes) && Increasing(found) && Locates(found, hashes, h)
    ensures |found| == (if h in hashes then 1 else 0)
  {
    if h in hashes {
      var i :| 0 <= i < |hashes| && hashes[i] == h;
      assert i in found;
      assert |found| >= 1;
    }
    if found != [] {
      var last := |found| - 1;
      assert found[0] in found && found[last] in found;
      assert hashes[found[0]] == hashes[found[last]] == h;
    }
  }
}
