/**
 * The part of `_lemmatize_batch` the project itself writes: which tokens of
 * a parsed text count as lemmas, and how their lemma is normalised.  The
 * language model is a parameter: a function from a text to its tokens, each
 * carrying the model's lemma and its three flags.
 */
module Lemmatizer {
  import opened Text

  /** What the pipeline reports of one token. */
  datatype Token = Token(lemmaText: string, isAlpha: bool, isStop: bool, isPunct: bool)

  /** Alphabetic, not a stop word, not punctuation. */
  predicate Kept(t: Token) {
    t.isAlpha && !t.isStop && !t.isPunct
  }

  /** `ps` lists, in increasing order, exactly the positions of the kept
      tokens of `doc`. */
  predicate KeptIn(doc: seq<Token>, ps: seq<nat>) {
    && (forall a, b :: 0 <= a < b < |ps| ==> ps[a] < ps[b])
    && (forall a :: 0 <= a < |ps| ==> ps[a] < |doc| && Kept(doc[ps[a]]))
    && (forall i :: 0 <= i < |doc| && Kept(doc[i]) ==> i in ps)
  }

  /** The positions of the kept tokens of `doc`, in document order. */
  function KeptPositions(doc: seq<Token>): (ps: seq<nat>)
    ensures KeptIn(doc, ps)
  {
    if doc == [] then []
    else
      var init, n := doc[..|doc| - 1], |doc| - 1;
      var ps := KeptPositions(init) + (if Kept(doc[n]) then [n] else []);
      assert forall i :: 0 <= i < n ==> doc[i] == init[i];
      ps
  }

  /** Only one sequence lists the kept positions in increasing order, so
      `KeptPositions` is determined by its contract. */
  lemma {:induction false} KeptPositionsUnique(doc: seq<Token>, ps: seq<nat>)
    requires KeptIn(doc, ps)
    ensures ps == KeptPositions(doc)
  {
    if doc != [] {
      var init, n := doc[..|doc| - 1], |doc| - 1;
      if Kept(doc[n]) {
        DropKeptLast(doc, ps);
        KeptPositionsUnique(init, ps[..|ps| - 1]);
        assert ps == ps[..|ps| - 1] + [n];
      } else {
        DropUnkeptLast(doc, ps);
        KeptPositionsUnique(init, ps);
      }
    }
  }

  /** When the last token is kept, it is the last listed position, and the
      others list the kept positions of the rest. */
  lemma DropKeptLast(doc: seq<Token>, ps: seq<nat>)
    requires doc != [] && Kept(doc[|doc| - 1]) && KeptIn(doc, ps)
    ensures ps != [] && ps[|ps| - 1] == |doc| - 1
    ensures KeptIn(doc[..|doc| - 1], ps[..|ps| - 1])
  {
    var init, n := doc[..|doc| - 1], |doc| - 1;
    assert n in ps;
    var a :| 0 <= a < |ps| && ps[a] == n;
    var rest := ps[..|ps| - 1];
    forall i | 0 <= i < |init| && Kept(init[i])
      ensures i in rest
    {
      assert doc[i] == init[i];
      var c :| 0 <= c < |ps| && ps[c] == i;
      assert rest[c] == i;
    }
    forall c | 0 <= c < |rest|
      ensures rest[c] < |init| && Kept(init[rest[c]])
    {
      assert rest[c] == ps[c] < ps[|ps| - 1];
      assert doc[rest[c]] == init[rest[c]];
    }
  }

  /** When the last token is not kept, the same positions list the kept
      positions of the rest. */
  lemma DropUnkeptLast(doc: seq<Token>, ps: seq<nat>)
    requires doc != [] && !Kept(doc[|doc| - 1]) && KeptIn(doc, ps)
    ensures KeptIn(doc[..|doc| - 1], ps)
  {
    var init := doc[..|doc| - 1];
    forall c | 0 <= c < |ps|
      ensures ps[c] < |init| && Kept(init[ps[c]])
    {
      assert ps[c] != |doc| - 1;
      assert doc[ps[c]] == init[ps[c]];
    }
    forall i | 0 <= i < |init| && Kept(init[i])
      ensures i in ps
    {
      assert doc[i] == init[i];
    }
  }

  /** The lower-cased lemmas of the kept tokens of one document, in token
      order: entry `j` is the lemma of the `j`-th kept token, lower-cased,
      so every kept token contributes exactly one entry and no other token
      any; no ASCII capital is left. */
  function DocLemmas(doc: seq<Token>): (r: seq<string>)
    ensures |r| == |KeptPositions(doc)| <= |doc|
    ensures forall j :: 0 <= j < |r| ==>
      HasNoUpper(r[j]) && r[j] == Lower(doc[KeptPositions(doc)[j]].lemmaText)
    ensures forall i :: 0 <= i < |doc| && Kept(doc[i]) ==> Lower(doc[i].lemmaText) in r
  {
    if doc == [] then []
    else
      var init, last := doc[..|doc| - 1], doc[|doc| - 1];
      var r := DocLemmas(init) + (if Kept(last) then [Lower(last.lemmaText)] else []);
      LowerIsLower(last.lemmaText);
      assert forall i :: 0 <= i < |init| ==> doc[i] == init[i];
      KeptCountBound(doc);
      KeptLemmasIn(doc, r);
      r
  }

  /** There are no more kept positions than tokens. */
  lemma {:induction false} KeptCountBound(doc: seq<Token>)
    ensures |KeptPositions(doc)| <= |doc|
  {
    if doc != [] {
      KeptCountBound(doc[..|doc| - 1]);
    }
  }

  /** A list whose entry `j` is the lemma of the `j`-th kept token holds the
      lemma of every kept token. */
  lemma {:induction false} KeptLemmasIn(doc: seq<Token>, r: seq<string>)
    requires |r| == |KeptPositions(doc)|
    requires forall j :: 0 <= j < |r| ==> r[j] == Lower(doc[KeptPositions(doc)[j]].lemmaText)
    ensures forall i :: 0 <= i < |doc| && Kept(doc[i]) ==> Lower(doc[i].lemmaText) in r
  {
    var ps := KeptPositions(doc);
    forall i | 0 <= i < |doc| && Kept(doc[i])
      ensures Lower(doc[i].lemmaText) in r
    {
      var a :| 0 <= a < |ps| && ps[a] == i;
      assert r[a] == Lower(doc[i].lemmaText);
    }
  }

  /** A document without kept tokens contributes no lemma. */
  lemma {:induction false} NoKeptNoLemmas(doc: seq<Token>)
    requires forall i :: 0 <= i < |doc| ==> !Kept(doc[i])
    ensures DocLemmas(doc) == []
  {
    if doc != [] {
      NoKeptNoLemmas(doc[..|doc| - 1]);
    }
  }

  /** `_lemmatize_batch(texts)`: one list per text, in input order. */
  method LemmatizeBatch(texts: seq<string>, nlp: string -> seq<Token>) returns (lists: seq<seq<string>>)
    ensures |lists| == |texts|
    ensures forall i :: 0 <= i < |texts| ==> lists[i] == DocLemmas(nlp(texts[i]))
  {
    lists := [];
    for i := 0 to |texts|
      invariant |lists| == i
      invariant forall k :: 0 <= k < i ==> lists[k] == DocLemmas(nlp(texts[k]))
    {
      lists := lists + [DocLemmas(nlp(texts[i]))];
    }
  }
}
