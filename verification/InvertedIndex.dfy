/** The plaintext inverted index: posting lists of document ids under term hashes. */
module InvertedIndexes {
  import opened Fhe

  const ID_COUNT: int := 0x1_0000_0000

  datatype DocMeta = DocMeta(id: nat, path: string, wordCount: nat)

  predicate HasHash(lex: Lexicon, tokens: seq<string>, h: nat) {
    exists i :: 0 <= i < |tokens| && HashTerm(lex, tokens[i]) == h
  }

  predicate Mentions(lex: Lexicon, content: string, h: nat) {
    HasHash(lex, lex.tokenize(content), h)
  }

  function Appended(s: seq<nat>, v: nat): (r: seq<nat>) {
    if v in s then s else s + [v]
  }

  method AppendUnique(s: seq<nat>, v: nat) returns (r: seq<nat>)
    ensures r == Appended(s, v)
  {
    for i := 0 to |s|
      invariant v !in s[..i]
    {
      if s[i] == v {
        return s;
      }
    }
    r := s + [v];
  }

  type Postings = map<nat, seq<nat>>

  /** A missing hash reads as the empty list. */
  function Lookup(terms: Postings, h: nat): (ids: seq<nat>) {
    if h in terms then terms[h] else []
  }

  /** `terms` after every token of a document has been entered under `id`. */
  function Entered(lex: Lexicon, terms: Postings, tokens: seq<string>, id: nat): (r: Postings) {
    if tokens == [] then terms
    else
      var before := Entered(lex, terms, tokens[..|tokens| - 1], id);
      var h := HashTerm(lex, tokens[|tokens| - 1]);
      before[h := Appended(Lookup(before, h), id)]
  }

  lemma HasHashStep(lex: Lexicon, tokens: seq<string>, h: nat)
    requires tokens != []
    ensures HasHash(lex, tokens, h)
       <==> HasHash(lex, tokens[..|tokens| - 1], h) || HashTerm(lex, tokens[|tokens| - 1]) == h
  {
    var n := |tokens| - 1;
    if HasHash(lex, tokens[..n], h) {
      var i :| 0 <= i < n && HashTerm(lex, tokens[..n][i]) == h;
      assert HashTerm(lex, tokens[i]) == h;
    }
    if HasHash(lex, tokens, h) {
      var i :| 0 <= i < |tokens| && HashTerm(lex, tokens[i]) == h;
      assert i < n ==> HashTerm(lex, tokens[..n][i]) == h;
    }
  }

  /** Entering a document adds its id to the lists of exactly the hashes its tokens have. */
  lemma {:induction false} EnteredLists(lex: Lexicon, terms: Postings, tokens: seq<string>, id: nat, h: nat)
    ensures Lookup(Entered(lex, terms, tokens, id), h)
         == if HasHash(lex, tokens, h) then Appended(Lookup(terms, h), id) else Lookup(terms, h)
    ensures h in Entered(lex, terms, tokens, id) <==> h in terms || HasHash(lex, tokens, h)
  {
    if tokens != [] {
      EnteredLists(lex, terms, tokens[..|tokens| - 1], id, h);
      HasHashStep(lex, tokens, h);
    }
  }

  /** The id the `i`-th added document gets: a 32-bit counter, which wraps around. */
  function IdOf(i: nat): (id: nat) {
    i % ID_COUNT
  }

  /** The list a search for hash `h` should find, by the documents added so far. */
  function PostingList(lex: Lexicon, added: seq<string>, h: nat): (ids: seq<nat>) {
    if added == [] then []
    else
      var before := PostingList(lex, added[..|added| - 1], h);
      if Mentions(lex, added[|added| - 1], h) then Appended(before, IdOf(|added| - 1)) else before
  }

  ghost predicate Distinct(s: seq<nat>) {
    forall i, j :: 0 <= i < j < |s| ==> s[i] != s[j]
  }

  ghost predicate Increasing(s: seq<nat>) {
    forall i, j :: 0 <= i < j < |s| ==> s[i] < s[j]
  }

  /** A posting list names, once each, the ids of the documents that have a token of that hash. */
  lemma {:induction false} PostingListIsExact(lex: Lexicon, added: seq<string>, h: nat)
    ensures Distinct(PostingList(lex, added, h))
    ensures forall id :: (id in PostingList(lex, added, h)
                          <==> exists i :: 0 <= i < |added| && IdOf(i) == id && Mentions(lex, added[i], h))
  {
    if added != [] {
      var n := |added| - 1;
      PostingListIsExact(lex, added[..n], h);
      assert forall i :: 0 <= i < n ==> added[..n][i] == added[i];
      forall id
        ensures id in PostingList(lex, added, h)
           <==> exists i :: 0 <= i < |added| && IdOf(i) == id && Mentions(lex, added[i], h)
      {
        if i :| 0 <= i < |added| && IdOf(i) == id && Mentions(lex, added[i], h) {
          if i < n {
            assert Mentions(lex, added[..n][i], h);
          }
        }
        if id in PostingList(lex, added[..n], h) {
          var i :| 0 <= i < n && IdOf(i) == id && Mentions(lex, added[..n][i], h);
          assert Mentions(lex, added[i], h);
        }
      }
    }
  }

  /** Until the id counter wraps, posting lists are strictly increasing and hold positions of documents. */
  lemma {:induction false} PostingListIsIncreasing(lex: Lexicon, added: seq<string>, h: nat)
    requires |added| <= ID_COUNT
    ensures Increasing(PostingList(lex, added, h))
    ensures forall id :: id in PostingList(lex, added, h) ==> id < |added|
  {
    if added != [] {
      var n := |added| - 1;
      PostingListIsIncreasing(lex, added[..n], h);
      assert IdOf(n) == n;
      var before := PostingList(lex, added[..n], h);
      assert forall i :: 0 <= i < |before| ==> before[i] in before;
    }
  }

  /** Adding a document keeps a list increasing if and only if it has that id already or no id as large. */
  lemma AppendedIsIncreasing(s: seq<nat>, v: nat)
    requires Increasing(s)
    ensures Increasing(Appended(s, v)) <==> v in s || forall x :: x in s ==> x < v
  {
    var r := Appended(s, v);
    assert forall i :: 0 <= i < |s| ==> s[i] in s;
    if v !in s && Increasing(r) {
      forall x | x in s
        ensures x < v
      {
        var i :| 0 <= i < |s| && s[i] == x;
        assert r[i] < r[|s|];
      }
    }
  }

  /** An unordered list stays unordered: ids are only ever put at the end. */
  lemma DisorderStays(lex: Lexicon, added: seq<string>, content: string, h: nat)
    requires Increasing(PostingList(lex, added + [content], h))
    ensures Increasing(PostingList(lex, added, h))
  {
    assert (added + [content])[..|added|] == added;
    var ids, more := PostingList(lex, added, h), PostingList(lex, added + [content], h);
    assert forall i :: 0 <= i < |ids| ==> ids[i] == more[i];
  }

  /** The last document, if it has the hash, repeats the id of an earlier one that has it or exceeds all of theirs. */
  ghost predicate LastKeepsOrder(lex: Lexicon, added: seq<string>, h: nat)
    requires added != []
  {
    var n := |added| - 1;
    Mentions(lex, added[n], h) ==>
      || (exists j :: 0 <= j < n && IdOf(j) == IdOf(n) && Mentions(lex, added[j], h))
      || (forall j :: 0 <= j < n && Mentions(lex, added[j], h) ==> IdOf(j) < IdOf(n))
  }

  /** Every document that has the hash comes with the id of an earlier one that has it, or with the greatest so far. */
  ghost predicate IdsArriveInOrder(lex: Lexicon, added: seq<string>, h: nat) {
    added == [] || (IdsArriveInOrder(lex, added[..|added| - 1], h) && LastKeepsOrder(lex, added, h))
  }

  lemma LastIsInOrder(lex: Lexicon, added: seq<string>, h: nat)
    requires added != []
    ensures var n := |added| - 1;
      LastKeepsOrder(lex, added, h) <==>
        (Mentions(lex, added[n], h) ==>
           || IdOf(n) in PostingList(lex, added[..n], h)
           || forall x :: x in PostingList(lex, added[..n], h) ==> x < IdOf(n))
  {
    var n := |added| - 1;
    PostingListIsExact(lex, added[..n], h);
    assert forall j :: 0 <= j < n ==> added[..n][j] == added[j];
    assert forall j :: 0 <= j < n && Mentions(lex, added[j], h) ==> IdOf(j) in PostingList(lex, added[..n], h);
  }

  /** Over every sequence of additions: a posting list is increasing if and only if its ids arrive in order. */
  lemma {:induction false} IncreasingExactly(lex: Lexicon, added: seq<string>, h: nat)
    ensures Increasing(PostingList(lex, added, h)) <==> IdsArriveInOrder(lex, added, h)
  {
    if added != [] {
      var n := |added| - 1;
      IncreasingExactly(lex, added[..n], h);
      LastIsInOrder(lex, added, h);
      if Increasing(PostingList(lex, added[..n], h)) {
        AppendedIsIncreasing(PostingList(lex, added[..n], h), IdOf(n));
      } else {
        assert added[..n] + [added[n]] == added;
        if Increasing(PostingList(lex, added, h)) {
          DisorderStays(lex, added[..n], added[n], h);
        }
      }
    }
  }

  /** Once the counter has wrapped, a list without id 0 gets it at its end and is no longer increasing. */
  lemma WrappedIdBreaksOrder(lex: Lexicon, added: seq<string>, content: string, h: nat)
    requires |added| == ID_COUNT && Mentions(lex, content, h)
    requires PostingList(lex, added, h) != [] && 0 !in PostingList(lex, added, h)
    ensures !Increasing(PostingList(lex, added + [content], h))
  {
    assert (added + [content])[..|added|] == added;
    var ids := PostingList(lex, added, h);
    PostingListIsIncreasing(lex, added, h);
    assert IdOf(|added|) == 0 && ids[0] in ids;
    AppendedIsIncreasing(ids, 0);
  }

  // An input on which the order is lost: the first document has no token of hash 1, all the others have.

  /** One token a document, hashed to its length. */
  function LengthLexicon(): (lex: Lexicon) {
    Lexicon(c => [c], s => |s|)
  }

  function EmptyThenLetters(n: nat): (added: seq<string>) {
    seq(n, i => if i == 0 then "" else "a")
  }

  lemma LetterMentions(n: nat, i: nat)
    requires i < n
    ensures Mentions(LengthLexicon(), EmptyThenLetters(n)[i], 1) <==> i > 0
  {
    var lex, c := LengthLexicon(), EmptyThenLetters(n)[i];
    assert lex.tokenize(c) == [c];
    assert HashTerm(lex, lex.tokenize(c)[0]) == |c| % T;
  }

  /** The first document past the counter's range gets id 0 again, behind id 1 and the others. */
  lemma FirstWrappedId()
    ensures !Increasing(PostingList(LengthLexicon(), EmptyThenLetters(ID_COUNT + 1), 1))
  {
    var lex, front := LengthLexicon(), EmptyThenLetters(ID_COUNT);
    PostingListIsExact(lex, front, 1);
    LetterMentions(ID_COUNT, 0);
    LetterMentions(ID_COUNT, 1);
    assert IdOf(1) == 1 && 1 in PostingList(lex, front, 1);
    assert front + ["a"] == EmptyThenLetters(ID_COUNT + 1);
    LetterMentions(ID_COUNT + 1, ID_COUNT);
    WrappedIdBreaksOrder(lex, front, "a", 1);
  }

  /** With every number of documents beyond the counter's range the list of hash 1 is out of order. */
  lemma {:induction false} WrappedIdsBreakOrder(n: nat)
    requires n > ID_COUNT
    ensures !Increasing(PostingList(LengthLexicon(), EmptyThenLetters(n), 1))
  {
    if n == ID_COUNT + 1 {
      FirstWrappedId();
    } else {
      WrappedIdsBreakOrder(n - 1);
      assert EmptyThenLetters(n) == EmptyThenLetters(n - 1) + ["a"];
      if Increasing(PostingList(LengthLexicon(), EmptyThenLetters(n), 1)) {
        DisorderStays(LengthLexicon(), EmptyThenLetters(n - 1), "a", 1);
      }
    }
  }

  /** Posting lists keep their order, whatever is added, exactly up to 2^32 documents. */
  lemma OrderHoldsExactly(n: nat)
    ensures (forall lex: Lexicon, added: seq<string>, h: nat :: |added| == n ==>
               Increasing(PostingList(lex, added, h))) <==> n <= ID_COUNT
  {
    if n <= ID_COUNT {
      forall lex: Lexicon, added: seq<string>, h: nat | |added| == n
        ensures Increasing(PostingList(lex, added, h))
      {
        PostingListIsIncreasing(lex, added, h);
      }
    } else {
      WrappedIdsBreakOrder(n);
      assert |EmptyThenLetters(n)| == n;
    }
  }

  /** The index read as a table: every hash leads to its posting list, and only non-empty lists are kept. */
  ghost predicate Represents(lex: Lexicon, terms: Postings, added: seq<string>) {
    forall h: nat ::
      Lookup(terms, h) == PostingList(lex, added, h) && (h in terms <==> PostingList(lex, added, h) != [])
  }

  lemma EnteringRepresents(lex: Lexicon, terms: Postings, added: seq<string>, content: string)
    requires Represents(lex, terms, added)
    ensures Represents(lex, Entered(lex, terms, lex.tokenize(content), IdOf(|added|)), added + [content])
  {
    var more := added + [content];
    assert more[..|added|] == added;
    forall h: nat
      ensures Lookup(Entered(lex, terms, lex.tokenize(content), IdOf(|added|)), h) == PostingList(lex, more, h)
      ensures h in Entered(lex, terms, lex.tokenize(content), IdOf(|added|)) <==> PostingList(lex, more, h) != []
    {
      EnteredLists(lex, terms, lex.tokenize(content), IdOf(|added|), h);
    }
  }

  /** Every id handed out has its document, filed under its own id. */
  ghost predicate Filed(documents: map<nat, DocMeta>, count: nat) {
    && (forall i {:trigger IdOf(i)} :: 0 <= i < count ==> IdOf(i) in documents)
    && (forall id :: id in documents ==> documents[id].id == id)
  }

  lemma FilingOneMore(documents: map<nat, DocMeta>, count: nat, doc: DocMeta)
    requires Filed(documents, count) && doc.id == IdOf(count)
    ensures Filed(documents[doc.id := doc], count + 1)
  {
  }

  lemma NextId(i: nat)
    ensures (IdOf(i) + 1) % ID_COUNT == IdOf(i + 1)
  {
  }

  class InvertedIndex {
    const lex: Lexicon
    var terms: Postings
    var documents: map<nat, DocMeta>
    var nextDocId: nat
    ghost var added: seq<string>

    ghost predicate Valid()
      reads this
    {
      && Represents(lex, terms, added)
      && nextDocId == IdOf(|added|)
      && Filed(documents, |added|)
    }

    constructor (lex: Lexicon)
      ensures Valid() && this.lex == lex && added == [] && terms == map[] && documents == map[]
    {
      this.lex := lex;
      terms, documents, nextDocId, added := map[], map[], 0, [];
    }

    /** The loop of AddDocument over the tokens. */
    method EnterTokens(tokens: seq<string>, id: nat)
      modifies this`terms
      ensures terms == Entered(lex, old(terms), tokens, id)
    {
      for i := 0 to |tokens|
        invariant terms == Entered(lex, old(terms), tokens[..i], id)
      {
        var h := HashTerm(lex, tokens[i]);
        var ids := AppendUnique(if h in terms then terms[h] else [], id);
        terms := terms[h := ids];
        assert tokens[..i + 1][..i] == tokens[..i];
      }
      assert tokens[..|tokens|] == tokens;
    }

    method AddDocument(path: string, content: string) returns (id: nat)
      requires Valid()
      modifies this
      ensures Valid() && added == old(added) + [content] && id == old(nextDocId)
      ensures documents == old(documents)[id := DocMeta(id, path, |lex.tokenize(content)|)]
    {
      id := nextDocId;
      NextId(|added|);
      nextDocId := (nextDocId + 1) % ID_COUNT;
      var tokens := lex.tokenize(content);
      FilingOneMore(documents, |added|, DocMeta(id, path, |tokens|));
      EnteringRepresents(lex, terms, added, content);
      documents := documents[id := DocMeta(id, path, |tokens|)];
      EnterTokens(tokens, id);
      added := added + [content];
    }

    method Query(term: string) returns (ids: seq<nat>)
      requires Valid()
      ensures ids == PostingList(lex, added, HashTerm(lex, term))
    {
      var h := HashTerm(lex, term);
      ids := if h in terms then terms[h] else [];
    }

    /** The documents of a search; every id in a posting list has its document. */
    method LocalQuery(term: string) returns (docs: seq<DocMeta>)
      requires Valid()
      ensures var ids := PostingList(lex, added, HashTerm(lex, term));
        |docs| == |ids| && forall i :: 0 <= i < |ids| ==> ids[i] in documents && docs[i] == documents[ids[i]]
    {
      var ids := Query(term);
      PostingListIsExact(lex, added, HashTerm(lex, term));
      docs := [];
      for i := 0 to |ids|
        invariant |docs| == i
        invariant forall k :: 0 <= k < i ==> ids[k] in documents && docs[k] == documents[ids[k]]
      {
        assert ids[i] in ids && exists k :: 0 <= k < |added| && IdOf(k) == ids[i];
        if ids[i] in documents {
          docs := docs + [documents[ids[i]]];
        }
      }
    }

    /** The hashes in use, each once, in whatever order the map yields them. */
    method TermHashes() returns (hashes: seq<nat>)
      ensures Distinct(hashes) && forall h :: h in hashes <==> h in terms
    {
      hashes := [];
      var left := terms.Keys;
      while left != {}
        invariant left <= terms.Keys && Distinct(hashes)
        invariant forall h :: h in hashes <==> h in terms && h !in left
        decreases |left|
      {
        var h :| h in left;
        hashes := hashes + [h];
        left := left - {h};
      }
    }
  }
}
