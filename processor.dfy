/**
 * The lemma indexing engine of `core/sub_processor.py`: a buffer of
 * segments, a cache from lemma text to lemma id, and the batch commit that
 * lemmatises the buffer and stores subtitles, new lemmas, relation rows and
 * card subtitles in one transaction.
 *
 * What one commit does to the store is the pure function `Flush`, built from
 * one small function per step of the source; the class `SubtitleProcessor`
 * performs the same steps against a `Store.Database` and is proved to agree
 * with it.  The properties the design promises are lemmas about `Flush`.
 *
 * Two inputs are beyond the program: the language model (`nlp`, a function
 * from a text to its tokens) and `random.choice` (`rand`, which gives the
 * position drawn from each lemma's list of subtitles, any natural number
 * being a possible draw).  The order in which Python iterates the set of new
 * lemma texts is the result `order`: any enumeration of the set.
 */
module SubProcessor {
  import opened Wrappers
  import opened Models
  import opened Store
  import opened Lemmatizer

  /** Why a commit raised. */
  datatype BatchError =
    | Database(error: DbError)
    /** pandas' `KeyError` for a column the frame does not have. */
    | MissingColumn(name: string)

  // ========================================================== the lemma cache

  /** The texts stored in `lemmas`. */
  function StoredTexts(lemmas: map<nat, Lemma>): set<string> {
    set k | k in lemmas :: lemmas[k].text
  }

  /** `within` is the optional `WHERE text IN (...)` filter. */
  predicate Matches(within: Option<set<string>>, w: string) {
    within.None? || w in within.value
  }

  ghost function IdOf(lemmas: map<nat, Lemma>, w: string): (k: nat)
    requires w in StoredTexts(lemmas)
    ensures k in lemmas && lemmas[k].text == w
  {
    var k :| k in lemmas && lemmas[k].text == w; k
  }

  /** The text-to-id dictionary a select of the lemma table (optionally
      restricted to texts `within`) populates. */
  ghost function TextIndex(lemmas: map<nat, Lemma>, within: Option<set<string>>): (m: map<string, nat>)
    ensures forall w :: w in m <==> w in StoredTexts(lemmas) && Matches(within, w)
    ensures forall w :: w in m ==> m[w] in lemmas && lemmas[m[w]].text == w
  {
    map w | w in StoredTexts(lemmas) && Matches(within, w) :: IdOf(lemmas, w)
  }

  /** A cache that maps exactly the stored texts to their rows' ids. */
  ghost predicate CacheFaithful(cache: map<string, nat>, t: Tables) {
    cache == TextIndex(t.lemmas, None)
  }

  /** Where texts are unique, the index is determined by ids and texts alone. */
  lemma {:induction false} TextIndexUnique(lemmas: map<nat, Lemma>, m: map<string, nat>, within: Option<set<string>>)
    requires UniqueTexts(lemmas)
    requires forall w :: w in m <==> w in StoredTexts(lemmas) && Matches(within, w)
    requires forall w :: w in m ==> m[w] in lemmas && lemmas[m[w]].text == w
    ensures m == TextIndex(lemmas, within)
  {
  }

  /** The keys of selected rows, in row order. */
  function KeysOf<K>(rows: seq<(nat, K)>): (keys: seq<K>)
    ensures |keys| == |rows| && forall i :: 0 <= i < |rows| ==> keys[i] == rows[i].1
  {
    seq(|rows|, i requires 0 <= i < |rows| => rows[i].1)
  }

  /** The position of the last element of `s` equal to `x`. */
  function LastIndexOf<T(==)>(s: seq<T>, x: T): (j: nat)
    requires x in s
    ensures j < |s| && s[j] == x
    ensures forall k :: j < k < |s| ==> s[k] != x
  {
    if s[|s| - 1] == x then |s| - 1 else LastIndexOf(s[..|s| - 1], x)
  }

  /** `base[key] = id` for each selected row `(id, key)` in order, as the
      dictionary comprehensions and the update loop of the source do it: the
      later row wins. */
  function Overlay<K(==,!new)>(base: map<K, nat>, rows: seq<(nat, K)>): map<K, nat> {
    if rows == [] then base
    else Overlay(base, rows[..|rows| - 1])[rows[|rows| - 1].1 := rows[|rows| - 1].0]
  }

  /** The keys of the overlay are the base's and the rows'; a key of the
      rows takes the id of its last row, any other key keeps its base id. */
  lemma {:induction false} OverlayFacts<K(!new)>(base: map<K, nat>, rows: seq<(nat, K)>)
    ensures forall k :: k in Overlay(base, rows) <==> k in base || k in KeysOf(rows)
    ensures forall k :: k in base && k !in KeysOf(rows) ==> Overlay(base, rows)[k] == base[k]
    ensures forall k :: k in KeysOf(rows) ==> Overlay(base, rows)[k] == rows[LastIndexOf(KeysOf(rows), k)].0
    decreases |rows|
  {
    if rows != [] {
      var init, last := rows[..|rows| - 1], rows[|rows| - 1];
      assert KeysOf(rows) == KeysOf(init) + [last.1];
      assert KeysOf(rows)[..|rows| - 1] == KeysOf(init);
      OverlayFacts(base, init);
    }
  }

  /** The loops and dictionary comprehensions that build a dictionary from
      selected rows. */
  method OverlayRows<K(==,!new)>(base: map<K, nat>, rows: seq<(nat, K)>) returns (m: map<K, nat>)
    ensures m == Overlay(base, rows)
  {
    m := base;
    for i := 0 to |rows|
      invariant m == Overlay(base, rows[..i])
    {
      assert rows[..i + 1][..i] == rows[..i];
      m := m[rows[i].1 := rows[i].0];
    }
    assert rows[..|rows|] == rows;
  }

  /** The rows a select of the lemma table returns: every row whose text
      passes the filter, once, as (id, text). */
  predicate SelectedRows(rows: seq<(nat, string)>, lemmas: map<nat, Lemma>, within: Option<set<string>>) {
    && (forall i :: 0 <= i < |rows| ==>
         rows[i].0 in lemmas && lemmas[rows[i].0].text == rows[i].1 && Matches(within, rows[i].1))
    && (forall k :: k in lemmas && Matches(within, lemmas[k].text) ==>
         exists i :: 0 <= i < |rows| && rows[i].0 == k)
  }

  /** The rows of such a select, laid over `cache`, give `cache` updated
      with the index of the selected texts. */
  lemma {:induction false} OverlayIndex(cache: map<string, nat>, rows: seq<(nat, string)>, lemmas: map<nat, Lemma>, within: Option<set<string>>)
    requires UniqueTexts(lemmas)
    requires SelectedRows(rows, lemmas, within)
    ensures Overlay(cache, rows) == cache + TextIndex(lemmas, within)
  {
    var r, idx, keys := Overlay(cache, rows), TextIndex(lemmas, within), KeysOf(rows);
    OverlayFacts(cache, rows);
    SelectedKeys(rows, lemmas, within);
    var rhs := cache + idx;
    forall w | w in r
      ensures w in rhs && r[w] == rhs[w]
    {
      if w in keys {
        SelectedValue(rows, lemmas, within, w);
      } else {
        assert w in cache && w !in idx;
      }
    }
    forall w | w in rhs
      ensures w in r
    {
    }
    MapsEqual(r, rhs);
  }

  lemma {:induction false} MapsEqual<K, V>(a: map<K, V>, b: map<K, V>)
    requires forall k :: k in a ==> k in b && a[k] == b[k]
    requires forall k :: k in b ==> k in a
    ensures a == b
  {
  }

  /** The keys of a select are the texts of the index. */
  lemma {:induction false} SelectedKeys(rows: seq<(nat, string)>, lemmas: map<nat, Lemma>, within: Option<set<string>>)
    requires SelectedRows(rows, lemmas, within)
    ensures forall w :: w in KeysOf(rows) <==> w in TextIndex(lemmas, within)
  {
    var idx, keys := TextIndex(lemmas, within), KeysOf(rows);
    forall w | w in keys
      ensures w in idx
    {
      var i :| 0 <= i < |keys| && keys[i] == w;
      assert lemmas[rows[i].0].text == w;
    }
    forall w | w in idx
      ensures w in keys
    {
      var i :| 0 <= i < |rows| && rows[i].0 == idx[w];
      assert keys[i] == w;
    }
  }

  /** The id the last selected row gives a text is the index's. */
  lemma {:induction false} SelectedValue(rows: seq<(nat, string)>, lemmas: map<nat, Lemma>, within: Option<set<string>>, w: string)
    requires UniqueTexts(lemmas) && SelectedRows(rows, lemmas, within)
    requires w in KeysOf(rows)
    ensures w in TextIndex(lemmas, within)
    ensures rows[LastIndexOf(KeysOf(rows), w)].0 == TextIndex(lemmas, within)[w]
  {
    var last := LastIndexOf(KeysOf(rows), w);
    assert lemmas[rows[last].0].text == w;
  }

  // ===================================================== the lemmas of a batch

  /** `set(exploded_df['lemmas'])`: every lemma of every segment. */
  function BatchLemmas(lists: seq<seq<string>>): set<string> {
    set i, j | 0 <= i < |lists| && 0 <= j < |lists[i]| :: lists[i][j]
  }

  /** `df['text'].unique()`. */
  function BatchTexts(batch: seq<Subtitle>): set<string> {
    set i | 0 <= i < |batch| :: batch[i].text
  }

  lemma {:induction false} BatchTextsHas(batch: seq<Subtitle>, i: nat)
    requires i < |batch|
    ensures batch[i].text in BatchTexts(batch)
  {
  }

  /** `order` lists the elements of `s`, each once. */
  predicate Enumerates(order: seq<string>, s: set<string>) {
    && DistinctTexts(order)
    && (forall w :: w in order ==> w in s)
    && (forall w :: w in s ==> w in order)
  }

  /** Only the empty sequence enumerates the empty set. */
  lemma {:induction false} EnumeratesNone(order: seq<string>, s: set<string>)
    requires Enumerates(order, s)
    ensures s == {} ==> order == []
  {
    if order != [] {
      assert order[0] in s;
    }
  }

  /** Iterating a Python set: some order, each element once. */
  method Enumerate(s: set<string>) returns (order: seq<string>)
    ensures Enumerates(order, s)
  {
    order := [];
    var rest := s;
    while rest != {}
      invariant DistinctTexts(order)
      invariant forall w :: w in s <==> w in order || w in rest
      invariant forall w :: w in order ==> w !in rest
      decreases |rest|
    {
      var w :| w in rest;
      order := order + [w];
      rest := rest - {w};
    }
  }

  function IndexOf(s: seq<string>, w: string): (i: nat)
    requires w in s
    ensures i < |s| && s[i] == w
  {
    if s[0] == w then 0 else 1 + IndexOf(s[1..], w)
  }

  /** The ids a multi-row insert of `order` starting at `next` hands out. */
  function NewIds(order: seq<string>, next: nat): (m: map<string, nat>)
    ensures forall w :: w in m <==> w in order
    ensures DistinctTexts(order) ==> forall i :: 0 <= i < |order| ==> m[order[i]] == next + i
  {
    map w | w in order :: next + IndexOf(order, w)
  }

  /** Selecting the texts just inserted gives back the ids they were
      inserted under. */
  lemma {:induction false} NewIdsIndex(t: Tables, order: seq<string>, s: set<string>)
    requires WellFormed(t) && FreshTexts(t.lemmas, order)
    requires forall w :: w in order <==> w in s
    ensures TextIndex(InsertLemmaRows(t, order).lemmas, Some(s)) == NewIds(order, t.nextLemmaId)
  {
    var t1 := InsertLemmaRows(t, order);
    InsertLemmaRowsWellFormed(t, order);
    var ids := NewIds(order, t.nextLemmaId);
    forall w | w in ids
      ensures ids[w] in t1.lemmas && t1.lemmas[ids[w]].text == w
    {
      var i := IndexOf(order, w);
      assert t1.lemmas[t.nextLemmaId + i] == NewLemma(order[i]);
    }
    forall w | w in StoredTexts(t1.lemmas) && Matches(Some(s), w)
      ensures w in ids
    {
    }
    TextIndexUnique(t1.lemmas, ids, Some(s));
  }

  /** `{self.lemma_cache[t] for t in all_lemmas_in_batch}`. */
  function LemmaIdsOf(texts: set<string>, cache: map<string, nat>): (ids: set<nat>)
    requires texts <= cache.Keys
    ensures forall k :: k in ids <==> exists w :: w in texts && cache[w] == k
  {
    set w | w in texts :: cache[w]
  }

  // ============================================== subtitle ids by natural key

  /** The id each segment is given by the lookup on (text, episode, start,
      end) after its rows were stored from id `start` on: the newest row with
      that key, which is the one of the key's last segment. */
  function SubtitleIds(batch: seq<Subtitle>, start: nat): (ids: seq<nat>)
    ensures |ids| == |batch|
    ensures forall i {:trigger ids[i]} :: 0 <= i < |batch| ==> ids[i] == start + LastIndexOf(batch, batch[i])
  {
    seq(|batch|, i requires 0 <= i < |batch| => start + LastIndexOf(batch, batch[i]))
  }

  /** Segments share an id exactly when they share the natural key. */
  lemma {:induction false} SubtitleIdsByKey(batch: seq<Subtitle>, start: nat)
    ensures forall i, j :: 0 <= i < |batch| && 0 <= j < |batch| ==>
      (SubtitleIds(batch, start)[i] == SubtitleIds(batch, start)[j] <==> batch[i] == batch[j])
  {
    var ids := SubtitleIds(batch, start);
    forall i, j | 0 <= i < |batch| && 0 <= j < |batch|
      ensures ids[i] == ids[j] <==> batch[i] == batch[j]
    {
      var li, lj := LastIndexOf(batch, batch[i]), LastIndexOf(batch, batch[j]);
      assert ids[i] == start + li && ids[j] == start + lj;
    }
  }

  /** Each segment's id is that of a row of the batch with the segment's key,
      and the last such row. */
  lemma {:induction false} SubtitleIdsInBatch(batch: seq<Subtitle>, start: nat)
    ensures forall i :: 0 <= i < |batch| ==>
      start <= SubtitleIds(batch, start)[i] < start + |batch| &&
      batch[SubtitleIds(batch, start)[i] - start] == batch[i]
    ensures forall i, k :: 0 <= i < |batch| && start + k > SubtitleIds(batch, start)[i] && k < |batch| ==>
      batch[k] != batch[i]
  {
    var ids := SubtitleIds(batch, start);
    forall i | 0 <= i < |batch|
      ensures start <= ids[i] < start + |batch| && batch[ids[i] - start] == batch[i]
    {
      var l := LastIndexOf(batch, batch[i]);
      assert ids[i] == start + l;
    }
  }

  /** A later position holding `x` than its last one is its last one. */
  lemma {:induction false} LastIndexOfIsLast<T>(s: seq<T>, x: T, j: nat)
    requires x in s && LastIndexOf(s, x) <= j < |s| && s[j] == x
    ensures j == LastIndexOf(s, x)
  {
  }

  /** The rows a select of the batch's texts returns after the batch was
      stored: exactly the stored subtitles with one of those texts, in id
      order. */
  predicate FetchedRows(subs: map<nat, Subtitle>, texts: set<string>, rows: seq<(nat, Subtitle)>) {
    && (forall p :: 0 <= p < |rows| ==> rows[p].0 in subs && subs[rows[p].0] == rows[p].1)
    && (forall k :: k in subs && subs[k].text in texts ==> exists p :: 0 <= p < |rows| && rows[p].0 == k)
    && (forall p, q :: 0 <= p < q < |rows| ==> rows[p].0 < rows[q].0)
  }

  /** Looking a key up in the rows of such a select finds the newest row
      with that key. */
  lemma {:induction false} LookupIsNewest(subs: map<nat, Subtitle>, texts: set<string>, rows: seq<(nat, Subtitle)>, key: Subtitle, k: nat)
    requires FetchedRows(subs, texts, rows)
    requires k in subs && subs[k] == key && key.text in texts
    ensures key in Overlay(map[], rows)
    ensures k <= Overlay(map[], rows)[key] && Overlay(map[], rows)[key] in subs
    ensures subs[Overlay(map[], rows)[key]] == key
  {
    var keys := KeysOf(rows);
    OverlayFacts(map[], rows);
    var p :| 0 <= p < |rows| && rows[p].0 == k;
    assert keys[p] == key;
    var q := LastIndexOf(keys, key);
    assert p <= q;
  }

  /** Looking the batch up by natural key in those rows finds, for every
      segment, the id `SubtitleIds` names, whatever older rows share the key. */
  lemma {:induction false} LookupOfBatch(t: Tables, batch: seq<Subtitle>, rows: seq<(nat, Subtitle)>, i: nat)
    requires WellFormed(t) && i < |batch|
    requires FetchedRows(InsertSubtitleRows(t, batch).subtitles, BatchTexts(batch), rows)
    ensures batch[i] in Overlay(map[], rows)
    ensures Overlay(map[], rows)[batch[i]] == SubtitleIds(batch, t.nextSubtitleId)[i]
  {
    LookupInAppended(t.subtitles, t.nextSubtitleId, batch, rows, i);
  }

  /** The same, for rows appended to any map with smaller ids. */
  lemma {:induction false} LookupInAppended(m: map<nat, Subtitle>, start: nat, batch: seq<Subtitle>, rows: seq<(nat, Subtitle)>, i: nat)
    requires IdsBelow(m, start) && i < |batch|
    requires FetchedRows(Appended(m, start, batch), BatchTexts(batch), rows)
    ensures batch[i] in Overlay(map[], rows)
    ensures Overlay(map[], rows)[batch[i]] == start + LastIndexOf(batch, batch[i])
  {
    AppendedPos(m, start, batch, LastIndexOf(batch, batch[i]));
    BatchTextsHas(batch, i);
    LookupIsNewest(Appended(m, start, batch), BatchTexts(batch), rows, batch[i], start + LastIndexOf(batch, batch[i]));
    NewestOfBatch(m, start, batch, i, Overlay(map[], rows)[batch[i]]);
  }

  /** An id of the appended map at or above the last row of a key that
      holds that key is that last row's. */
  lemma {:induction false} NewestOfBatch(m: map<nat, Subtitle>, start: nat, batch: seq<Subtitle>, i: nat, id: nat)
    requires IdsBelow(m, start) && i < |batch|
    requires id in Appended(m, start, batch) && Appended(m, start, batch)[id] == batch[i]
    requires start + LastIndexOf(batch, batch[i]) <= id
    ensures id == start + LastIndexOf(batch, batch[i])
  {
    AppendedAt(m, start, batch, id);
    LastIndexOfIsLast(batch, batch[i], id - start);
  }

  // ======================================================== the relation rows

  /** All lemmas of the batch have an id in `cache`. */
  predicate AllCached(lists: seq<seq<string>>, cache: map<string, nat>) {
    forall i, j :: 0 <= i < |lists| && 0 <= j < |lists[i]| ==> lists[i][j] in cache
  }

  /** The relation rows of one segment: one per lemma occurrence. */
  function SegmentRelations(subtitleId: nat, lemmas: seq<string>, cache: map<string, nat>): (rows: seq<SubtitleLemma>)
    requires forall j :: 0 <= j < |lemmas| ==> lemmas[j] in cache
    ensures |rows| == |lemmas|
    ensures forall j :: 0 <= j < |lemmas| ==> rows[j] == SubtitleLemma(subtitleId, cache[lemmas[j]])
  {
    seq(|lemmas|, j requires 0 <= j < |lemmas| => SubtitleLemma(subtitleId, cache[lemmas[j]]))
  }

  /** `rels_to_insert`: segment by segment, lemma occurrence by lemma
      occurrence. */
  function RelationRows(lists: seq<seq<string>>, subIds: seq<nat>, cache: map<string, nat>): seq<SubtitleLemma>
    requires |subIds| == |lists| && AllCached(lists, cache)
  {
    if lists == [] then []
    else
      var n := |lists| - 1;
      RelationRows(lists[..n], subIds[..n], cache) + SegmentRelations(subIds[n], lists[n], cache)
  }

  /** The lemmas of the lists with one more segment are those of the lists
      and of the segment. */
  lemma {:induction false} BatchLemmasSnoc(lists: seq<seq<string>>, last: seq<string>)
    ensures BatchLemmas(lists + [last]) == BatchLemmas(lists) + (set w | w in last)
  {
    var all := lists + [last];
    assert forall i, j :: 0 <= i < |lists| && 0 <= j < |lists[i]| ==> all[i][j] == lists[i][j];
    assert all[|lists|] == last;
  }

  /** There are relation rows exactly when the batch has some lemma. */
  lemma {:induction false} RelationRowsEmpty(lists: seq<seq<string>>, subIds: seq<nat>, cache: map<string, nat>)
    requires |subIds| == |lists| && AllCached(lists, cache)
    ensures RelationRows(lists, subIds, cache) == [] <==> BatchLemmas(lists) == {}
  {
    if lists != [] {
      var n := |lists| - 1;
      assert lists == lists[..n] + [lists[n]];
      BatchLemmasSnoc(lists[..n], lists[n]);
      RelationRowsEmpty(lists[..n], subIds[..n], cache);
      if lists[n] != [] {
        assert lists[n][0] in BatchLemmas(lists);
      }
    }
  }

  /** Every relation row pairs a segment's id with the id of one of that
      segment's lemmas. */
  lemma {:induction false} RelationRowsFrom(lists: seq<seq<string>>, subIds: seq<nat>, cache: map<string, nat>, q: nat)
    requires |subIds| == |lists| && AllCached(lists, cache)
    requires q < |RelationRows(lists, subIds, cache)|
    ensures exists i, j ::
      && 0 <= i < |lists| && 0 <= j < |lists[i]|
      && RelationRows(lists, subIds, cache)[q] == SubtitleLemma(subIds[i], cache[lists[i][j]])
  {
    var n := |lists| - 1;
    var init := RelationRows(lists[..n], subIds[..n], cache);
    if q < |init| {
      RelationRowsFrom(lists[..n], subIds[..n], cache, q);
      var i, j :| 0 <= i < n && 0 <= j < |lists[..n][i]| &&
        init[q] == SubtitleLemma(subIds[..n][i], cache[lists[..n][i][j]]);
      assert lists[..n][i][j] == lists[i][j];
    } else {
      var j := q - |init|;
      assert RelationRows(lists, subIds, cache)[q] == SubtitleLemma(subIds[n], cache[lists[n][j]]);
    }
  }

  /** Conversely, each lemma occurrence of each segment has its row. */
  lemma {:induction false} RelationRowsCover(lists: seq<seq<string>>, subIds: seq<nat>, cache: map<string, nat>, i: nat, j: nat)
    requires |subIds| == |lists| && AllCached(lists, cache)
    requires i < |lists| && j < |lists[i]|
    ensures SubtitleLemma(subIds[i], cache[lists[i][j]]) in RelationRows(lists, subIds, cache)
  {
    var n := |lists| - 1;
    var init := RelationRows(lists[..n], subIds[..n], cache);
    var seg := SegmentRelations(subIds[n], lists[n], cache);
    if i < n {
      RelationRowsCover(lists[..n], subIds[..n], cache, i, j);
      assert lists[..n][i][j] == lists[i][j];
      assert SubtitleLemma(subIds[i], cache[lists[i][j]]) in init;
    } else {
      assert seg[j] == SubtitleLemma(subIds[i], cache[lists[i][j]]);
    }
  }

  /** The number of occurrences of `w` in the lemma lists. */
  function Occurrences(lists: seq<seq<string>>, w: string): nat {
    if lists == [] then 0
    else Occurrences(lists[..|lists| - 1], w) + CountOf(lists[|lists| - 1], w)
  }

  function CountOf(s: seq<string>, w: string): nat {
    if s == [] then 0 else CountOf(s[..|s| - 1], w) + (if s[|s| - 1] == w then 1 else 0)
  }

  /** The cache tells the batch's lemmas apart. */
  predicate CacheInjective(lists: seq<seq<string>>, cache: map<string, nat>) {
    forall a, b :: a in BatchLemmas(lists) && b in BatchLemmas(lists) && a in cache && b in cache && cache[a] == cache[b] ==> a == b
  }

  lemma {:induction false} SegmentCount(subId: nat, lemmas: seq<string>, cache: map<string, nat>, w: string, others: set<string>)
    requires forall j :: 0 <= j < |lemmas| ==> lemmas[j] in cache && lemmas[j] in others
    requires w in cache && w in others
    requires forall a :: a in others && a in cache && cache[a] == cache[w] ==> a == w
    ensures CountIn(SegmentRelations(subId, lemmas, cache), cache[w]) == CountOf(lemmas, w)
    decreases |lemmas|
  {
    if lemmas != [] {
      var init := lemmas[..|lemmas| - 1];
      SegmentCount(subId, init, cache, w, others);
      assert SegmentRelations(subId, lemmas, cache)[..|lemmas| - 1] == SegmentRelations(subId, init, cache);
    }
  }

  /** Each lemma of the batch is named by as many new relation rows as it
      has occurrences in the batch. */
  lemma {:induction false} RelationRowsCount(lists: seq<seq<string>>, subIds: seq<nat>, cache: map<string, nat>, w: string)
    requires |subIds| == |lists| && AllCached(lists, cache) && CacheInjective(lists, cache)
    requires w in cache && w in BatchLemmas(lists)
    ensures CountIn(RelationRows(lists, subIds, cache), cache[w]) == Occurrences(lists, w)
    decreases |lists|
  {
    var n := |lists| - 1;
    var init := lists[..n];
    var seg := SegmentRelations(subIds[n], lists[n], cache);
    assert forall i, j :: 0 <= i < n && 0 <= j < |init[i]| ==> init[i][j] == lists[i][j];
    assert forall j :: 0 <= j < |lists[n]| ==> lists[n][j] in BatchLemmas(lists);
    CountInAppend(RelationRows(init, subIds[..n], cache), seg, cache[w]);
    SegmentCount(subIds[n], lists[n], cache, w, BatchLemmas(lists));
    if w in BatchLemmas(init) {
      RelationRowsCount(init, subIds[..n], cache, w);
    } else {
      RelationRowsNone(init, subIds[..n], cache, cache[w]);
      OccurrencesNone(init, w);
    }
  }

  /** An id no lemma of the batch is cached under is named by no row. */
  lemma {:induction false} RelationRowsNone(lists: seq<seq<string>>, subIds: seq<nat>, cache: map<string, nat>, k: nat)
    requires |subIds| == |lists| && AllCached(lists, cache)
    requires forall a :: a in BatchLemmas(lists) && a in cache ==> cache[a] != k
    ensures CountIn(RelationRows(lists, subIds, cache), k) == 0
  {
    var rows := RelationRows(lists, subIds, cache);
    forall q | 0 <= q < |rows|
      ensures rows[q].lemmaId != k
    {
      RelationRowsFrom(lists, subIds, cache, q);
      var i, j :| 0 <= i < |lists| && 0 <= j < |lists[i]| && rows[q] == SubtitleLemma(subIds[i], cache[lists[i][j]]);
      assert lists[i][j] in BatchLemmas(lists);
    }
    CountInPositive(rows, k);
  }

  lemma {:induction false} OccurrencesNone(lists: seq<seq<string>>, w: string)
    requires w !in BatchLemmas(lists)
    ensures Occurrences(lists, w) == 0
    decreases |lists|
  {
    if lists != [] {
      var n := |lists| - 1;
      assert forall i, j :: 0 <= i < n && 0 <= j < |lists[i]| ==> lists[..n][i][j] == lists[i][j];
      OccurrencesNone(lists[..n], w);
      CountOfNone(lists[n], w);
    }
  }

  lemma {:induction false} CountOfNone(s: seq<string>, w: string)
    requires w !in s
    ensures CountOf(s, w) == 0
    decreases |s|
  {
    if s != [] {
      CountOfNone(s[..|s| - 1], w);
    }
  }

  // ============================================================== the cards

  /** `lemma_to_subtitles_map.get(lemmaId)`: the subtitle ids of the rows
      naming the lemma, in row order. */
  function Associated(rels: seq<SubtitleLemma>, lemmaId: nat): (subs: seq<nat>)
    ensures forall s :: s in subs <==> SubtitleLemma(s, lemmaId) in rels
  {
    if rels == [] then []
    else
      var init, last := rels[..|rels| - 1], rels[|rels| - 1];
      assert rels == init + [last];
      Associated(init, lemmaId) + (if last.lemmaId == lemmaId then [last.subtitleId] else [])
  }

  /** `lemmas_to_update`: each lemma of the batch that has rows gets one of
      its subtitles, the one at position `rand(lemmaId)` modulo the list's
      length standing for `random.choice`. */
  function Cards(rels: seq<SubtitleLemma>, ids: set<nat>, rand: nat -> nat): (cards: map<nat, nat>)
    ensures forall k :: k in cards <==> k in ids && Associated(rels, k) != []
    ensures forall k :: k in cards ==> SubtitleLemma(cards[k], k) in rels
  {
    map k | k in ids && Associated(rels, k) != [] :: Associated(rels, k)[rand(k) % |Associated(rels, k)|]
  }

  // ============================================================== one commit

  /** What a commit leaves: the outcome, the store (rolled back when the
      outcome is a failure) and the cache (never rolled back). */
  datatype Flushed = Flushed(outcome: Outcome<BatchError>, tables: Tables, cache: map<string, nat>)

  /** What the caller of a commit supplies: a non-empty buffer, one lemma list
      per segment and an enumeration of the new lemma texts. */
  predicate FlushArgs(batch: seq<Subtitle>, lists: seq<seq<string>>, cache0: map<string, nat>, order: seq<string>) {
    batch != [] && |lists| == |batch| && Enumerates(order, BatchLemmas(lists) - cache0.Keys)
  }

  /** The cache after lines 84-91: the new texts under the new ids. */
  function CacheAfter(cache0: map<string, nat>, order: seq<string>, next: nat): map<string, nat> {
    cache0 + NewIds(order, next)
  }

  /** Without new texts the cache is left as it is. */
  lemma {:induction false} CacheAfterNothing(cache0: map<string, nat>, next: nat)
    ensures CacheAfter(cache0, [], next) == cache0
  {
    MapsEqual(CacheAfter(cache0, [], next), cache0);
  }

  lemma {:induction false} CacheAfterCovers(lists: seq<seq<string>>, cache0: map<string, nat>, order: seq<string>, next: nat)
    requires Enumerates(order, BatchLemmas(lists) - cache0.Keys)
    ensures AllCached(lists, CacheAfter(cache0, order, next))
    ensures BatchLemmas(lists) <= CacheAfter(cache0, order, next).Keys
  {
    forall i, j | 0 <= i < |lists| && 0 <= j < |lists[i]|
      ensures lists[i][j] in CacheAfter(cache0, order, next)
    {
      assert lists[i][j] in BatchLemmas(lists);
    }
  }

  /** Lines 84-86: nothing to do without new texts; otherwise the insert of
      the new texts, which fails like any statement, or on a text already
      stored.  The select of line 89 binds fewer parameters than the insert,
      so it cannot fail once the insert has passed. */
  function LemmaOutcome(tablesExist: bool, maxVariables: nat, t0: Tables, order: seq<string>): Outcome<DbError> {
    if order == [] then Pass
    else
      var c := Checked(tablesExist, maxVariables, LemmaInsertParams * |order|);
      if c.Fail? then c else if !FreshTexts(t0.lemmas, order) then Fail(UniqueViolation) else Pass
  }

  /** Lines 122-137: the insert of the relation rows when there are any, and
      (as written) the `KeyError` of the `groupby` when there are none. */
  function RelationOutcome(keyErrorOnEmpty: bool, tablesExist: bool, maxVariables: nat, rels: seq<SubtitleLemma>): Outcome<BatchError> {
    if rels == [] then (if keyErrorOnEmpty then Fail(MissingColumn("lemma_id")) else Pass)
    else
      var c := Checked(tablesExist, maxVariables, RelationInsertParams * |rels|);
      if c.Fail? then Fail(Database(c.error)) else Pass
  }

  /** Lines 146-147: the bulk update when some lemma gets a card. */
  function CardOutcome(tablesExist: bool, maxVariables: nat, cards: map<nat, nat>): Outcome<DbError> {
    if cards == map[] then Pass else Checked(tablesExist, maxVariables, BulkUpdateParams * |cards|)
  }

  /** The relation rows of a commit (lines 122-128). */
  function CommitRelations(t0: Tables, batch: seq<Subtitle>, lists: seq<seq<string>>,
                           cache0: map<string, nat>, order: seq<string>): seq<SubtitleLemma>
    requires FlushArgs(batch, lists, cache0, order)
  {
    CacheAfterCovers(lists, cache0, order, t0.nextLemmaId);
    RelationRows(lists, SubtitleIds(batch, t0.nextSubtitleId), CacheAfter(cache0, order, t0.nextLemmaId))
  }

  /** The cards of a commit (lines 133-145). */
  function CommitCards(t0: Tables, batch: seq<Subtitle>, lists: seq<seq<string>>,
                       cache0: map<string, nat>, order: seq<string>, rand: nat -> nat): map<nat, nat>
    requires FlushArgs(batch, lists, cache0, order)
  {
    CacheAfterCovers(lists, cache0, order, t0.nextLemmaId);
    Cards(CommitRelations(t0, batch, lists, cache0, order),
          LemmaIdsOf(BatchLemmas(lists), CacheAfter(cache0, order, t0.nextLemmaId)), rand)
  }

  /** The store after a commit whose every statement passed. */
  function Committed(t0: Tables, batch: seq<Subtitle>, lists: seq<seq<string>>,
                     cache0: map<string, nat>, order: seq<string>, rand: nat -> nat): Tables
    requires FlushArgs(batch, lists, cache0, order)
  {
    SetCards(InsertRelationRows(InsertSubtitleRows(InsertLemmaRows(t0, order), batch),
                                CommitRelations(t0, batch, lists, cache0, order)),
             CommitCards(t0, batch, lists, cache0, order, rand))
  }

  /** The outcome of the statements after line 91, in order: the subtitle
      insert, the relation rows, the bulk update of the cards. */
  function LaterOutcome(keyErrorOnEmpty: bool, tablesExist: bool, maxVariables: nat, t0: Tables,
                        batch: seq<Subtitle>, lists: seq<seq<string>>, cache0: map<string, nat>,
                        order: seq<string>, rand: nat -> nat): Outcome<BatchError>
    requires FlushArgs(batch, lists, cache0, order)
  {
    var subtitleStep := Checked(tablesExist, maxVariables, SubtitleInsertParams * |batch|);
    var relationStep := RelationOutcome(keyErrorOnEmpty, tablesExist, maxVariables, CommitRelations(t0, batch, lists, cache0, order));
    var cardStep := CardOutcome(tablesExist, maxVariables, CommitCards(t0, batch, lists, cache0, order, rand));
    if subtitleStep.Fail? then Fail(Database(subtitleStep.error))
    else if relationStep.Fail? then relationStep
    else if cardStep.Fail? then Fail(Database(cardStep.error))
    else Pass
  }

  /** The commit of lines 74-151.  The first statement that fails ends it and
      the transaction is rolled back; the cache keeps what lines 90-91 put in
      it.  With `keyErrorOnEmpty` it is the code as written, where a batch
      without any lemma raises at the `groupby` of line 137 because
      `lemma_id` was only added to the frame inside the `if not
      rels_df.empty` of line 123; without it, the commit simply has no
      relation rows and no cards to write. */
  function FlushWith(keyErrorOnEmpty: bool, tablesExist: bool, maxVariables: nat, t0: Tables,
                     batch: seq<Subtitle>, lists: seq<seq<string>>, cache0: map<string, nat>,
                     order: seq<string>, rand: nat -> nat): Flushed
    requires FlushArgs(batch, lists, cache0, order)
  {
    var lemmaStep := LemmaOutcome(tablesExist, maxVariables, t0, order);
    var later := LaterOutcome(keyErrorOnEmpty, tablesExist, maxVariables, t0, batch, lists, cache0, order, rand);
    var cache := CacheAfter(cache0, order, t0.nextLemmaId);
    if lemmaStep.Fail? then Flushed(Fail(Database(lemmaStep.error)), t0, cache0)
    else if later.Fail? then Flushed(later, t0, cache)
    else Flushed(Pass, Committed(t0, batch, lists, cache0, order, rand), cache)
  }

  /** The commit as the source writes it. */
  function FlushAsWritten(tablesExist: bool, maxVariables: nat, t0: Tables, batch: seq<Subtitle>,
                          lists: seq<seq<string>>, cache0: map<string, nat>, order: seq<string>, rand: nat -> nat): Flushed
    requires FlushArgs(batch, lists, cache0, order)
  {
    FlushWith(true, tablesExist, maxVariables, t0, batch, lists, cache0, order, rand)
  }

  /** The commit as intended: a batch without lemmas stores its subtitles. */
  function Flush(tablesExist: bool, maxVariables: nat, t0: Tables, batch: seq<Subtitle>,
                 lists: seq<seq<string>>, cache0: map<string, nat>, order: seq<string>, rand: nat -> nat): Flushed
    requires FlushArgs(batch, lists, cache0, order)
  {
    FlushWith(false, tablesExist, maxVariables, t0, batch, lists, cache0, order, rand)
  }

  // ================================================== what a commit achieves

  /** A failed commit leaves the store as it was; the cache keeps what it
      had before, together with the new texts when the failure came after
      line 91. */
  lemma {:induction false} FailedFlushRollsBack(keyErrorOnEmpty: bool, tablesExist: bool, maxVariables: nat, t0: Tables,
                             batch: seq<Subtitle>, lists: seq<seq<string>>, cache0: map<string, nat>,
                             order: seq<string>, rand: nat -> nat)
    requires FlushArgs(batch, lists, cache0, order)
    ensures FlushWith(keyErrorOnEmpty, tablesExist, maxVariables, t0, batch, lists, cache0, order, rand).outcome.Fail? ==>
      && FlushWith(keyErrorOnEmpty, tablesExist, maxVariables, t0, batch, lists, cache0, order, rand).tables == t0
      && (|| FlushWith(keyErrorOnEmpty, tablesExist, maxVariables, t0, batch, lists, cache0, order, rand).cache == cache0
          || FlushWith(keyErrorOnEmpty, tablesExist, maxVariables, t0, batch, lists, cache0, order, rand).cache
               == CacheAfter(cache0, order, t0.nextLemmaId))
  {
  }

  /** A successful commit leaves the store `Committed` describes and the
      cache with the new texts; it needs the tables. */
  lemma {:induction false} FlushSucceeds(tablesExist: bool, maxVariables: nat, t0: Tables, batch: seq<Subtitle>,
                                         lists: seq<seq<string>>, cache0: map<string, nat>, order: seq<string>, rand: nat -> nat)
    requires FlushArgs(batch, lists, cache0, order)
    requires Flush(tablesExist, maxVariables, t0, batch, lists, cache0, order, rand).outcome.Pass?
    ensures tablesExist
    ensures Flush(tablesExist, maxVariables, t0, batch, lists, cache0, order, rand)
      == Flushed(Pass, Committed(t0, batch, lists, cache0, order, rand), CacheAfter(cache0, order, t0.nextLemmaId))
  {
  }

  /** On a store whose tables are missing every commit fails, changing
      nothing. */
  lemma {:induction false} FlushWithoutTables(maxVariables: nat, t0: Tables, batch: seq<Subtitle>, lists: seq<seq<string>>,
                           cache0: map<string, nat>, order: seq<string>, rand: nat -> nat)
    requires FlushArgs(batch, lists, cache0, order)
    ensures Flush(false, maxVariables, t0, batch, lists, cache0, order, rand) == Flushed(Fail(Database(NoSuchTable)), t0, cache0)
  {
    if order == [] {
      CacheAfterNothing(cache0, t0.nextLemmaId);
    }
  }

  /** After a commit that failed past line 91, the cache names texts no
      lemma row carries: the rows were rolled back, the cache entries stay. */
  lemma {:induction false} FailedFlushLeavesStaleCache(maxVariables: nat, t0: Tables, batch: seq<Subtitle>,
                                    lists: seq<seq<string>>, cache0: map<string, nat>,
                                    order: seq<string>, rand: nat -> nat)
    requires FlushArgs(batch, lists, cache0, order)
    requires WellFormed(t0) && CacheFaithful(cache0, t0) && order != []
    requires LemmaInsertParams * |order| <= maxVariables < SubtitleInsertParams * |batch|
    ensures Flush(true, maxVariables, t0, batch, lists, cache0, order, rand).outcome == Fail(Database(TooManyVariables))
    ensures Flush(true, maxVariables, t0, batch, lists, cache0, order, rand).tables == t0
    ensures order[0] in Flush(true, maxVariables, t0, batch, lists, cache0, order, rand).cache
    ensures order[0] !in StoredTexts(t0.lemmas)
  {
    NewTextsFresh(t0, lists, cache0, order);
    assert order[0] in NewIds(order, t0.nextLemmaId);
  }

  /** With a faithful cache the new texts are stored nowhere yet, so their
      insert cannot violate the unique constraint. */
  lemma {:induction false} NewTextsFresh(t0: Tables, lists: seq<seq<string>>, cache0: map<string, nat>, order: seq<string>)
    requires CacheFaithful(cache0, t0)
    requires Enumerates(order, BatchLemmas(lists) - cache0.Keys)
    ensures FreshTexts(t0.lemmas, order)
    ensures forall i :: 0 <= i < |order| ==> order[i] !in StoredTexts(t0.lemmas)
  {
    forall k, i | k in t0.lemmas && 0 <= i < |order|
      ensures t0.lemmas[k].text != order[i]
    {
      assert t0.lemmas[k].text in StoredTexts(t0.lemmas);
    }
  }

  // --------------------------------------------------- the lemma rows

  /** Only frequencies and cards of lemma rows change after line 86. */
  lemma {:induction false} CommittedLemmaRows(t0: Tables, batch: seq<Subtitle>, lists: seq<seq<string>>,
                                              cache0: map<string, nat>, order: seq<string>, rand: nat -> nat)
    requires FlushArgs(batch, lists, cache0, order)
    ensures forall k :: k in Committed(t0, batch, lists, cache0, order, rand).lemmas <==> k in InsertLemmaRows(t0, order).lemmas
    ensures forall k :: k in InsertLemmaRows(t0, order).lemmas ==>
      Committed(t0, batch, lists, cache0, order, rand).lemmas[k].text == InsertLemmaRows(t0, order).lemmas[k].text
  {
    var t2 := InsertSubtitleRows(InsertLemmaRows(t0, order), batch);
    var rels := CommitRelations(t0, batch, lists, cache0, order);
    RelationsKeepTexts(t2, rels);
    SetCardsKeepsTexts(InsertRelationRows(t2, rels), CommitCards(t0, batch, lists, cache0, order, rand));
  }

  lemma {:induction false} RelationsKeepTexts(t: Tables, rels: seq<SubtitleLemma>)
    ensures forall k :: k in InsertRelationRows(t, rels).lemmas <==> k in t.lemmas
    ensures forall k :: k in t.lemmas ==> InsertRelationRows(t, rels).lemmas[k].text == t.lemmas[k].text
  {
    InsertRelationRowsEffect(t, rels);
  }

  lemma {:induction false} SetCardsKeepsTexts(t: Tables, cards: map<nat, nat>)
    ensures forall k :: k in SetCards(t, cards).lemmas <==> k in t.lemmas
    ensures forall k :: k in t.lemmas ==> SetCards(t, cards).lemmas[k].text == t.lemmas[k].text
  {
  }

  /** The ids of a faithful cache and of the new texts name rows with those
      texts once the new texts are inserted. */
  lemma {:induction false} CacheAfterFaithful(t0: Tables, lists: seq<seq<string>>, cache0: map<string, nat>, order: seq<string>)
    requires WellFormed(t0) && CacheFaithful(cache0, t0)
    requires Enumerates(order, BatchLemmas(lists) - cache0.Keys)
    ensures WellFormed(InsertLemmaRows(t0, order))
    ensures CacheFaithful(CacheAfter(cache0, order, t0.nextLemmaId), InsertLemmaRows(t0, order))
  {
    NewTextsFresh(t0, lists, cache0, order);
    InsertLemmaRowsWellFormed(t0, order);
    CacheAfterSound(t0, lists, cache0, order);
    CacheAfterComplete(t0, lists, cache0, order);
    TextIndexUnique(InsertLemmaRows(t0, order).lemmas, CacheAfter(cache0, order, t0.nextLemmaId), None);
  }

  lemma {:induction false} CacheAfterSound(t0: Tables, lists: seq<seq<string>>, cache0: map<string, nat>, order: seq<string>)
    requires WellFormed(t0) && CacheFaithful(cache0, t0)
    requires Enumerates(order, BatchLemmas(lists) - cache0.Keys)
    ensures forall w :: w in CacheAfter(cache0, order, t0.nextLemmaId) ==>
      && CacheAfter(cache0, order, t0.nextLemmaId)[w] in InsertLemmaRows(t0, order).lemmas
      && InsertLemmaRows(t0, order).lemmas[CacheAfter(cache0, order, t0.nextLemmaId)[w]].text == w
  {
    var t1, cache, next := InsertLemmaRows(t0, order), CacheAfter(cache0, order, t0.nextLemmaId), t0.nextLemmaId;
    forall w | w in cache
      ensures cache[w] in t1.lemmas && t1.lemmas[cache[w]].text == w
    {
      if w in order {
        NewTextLookup(t0, cache0, order, w);
      } else {
        CacheAfterAt(cache0, order, next, w);
        FaithfulLookup(cache0, t0, w);
      }
    }
  }

  /** A new text is cached under the id of its new row. */
  lemma {:induction false} NewTextLookup(t0: Tables, cache0: map<string, nat>, order: seq<string>, w: string)
    requires w in order
    ensures w in CacheAfter(cache0, order, t0.nextLemmaId)
    ensures CacheAfter(cache0, order, t0.nextLemmaId)[w] in InsertLemmaRows(t0, order).lemmas
    ensures InsertLemmaRows(t0, order).lemmas[CacheAfter(cache0, order, t0.nextLemmaId)[w]].text == w
  {
    NewTextRow(t0, cache0, order, w);
  }

  /** A text of the enumeration gets the id of its position; any other
      keeps its old id. */
  lemma {:induction false} CacheAfterAt(cache0: map<string, nat>, order: seq<string>, next: nat, w: string)
    requires w in CacheAfter(cache0, order, next)
    ensures w in order ==> CacheAfter(cache0, order, next)[w] == next + IndexOf(order, w)
    ensures w !in order ==> w in cache0 && CacheAfter(cache0, order, next)[w] == cache0[w]
  {
  }

  /** A faithful cache names, for each of its texts, a row with that text. */
  lemma {:induction false} FaithfulLookup(cache: map<string, nat>, t: Tables, w: string)
    requires CacheFaithful(cache, t) && w in cache
    ensures cache[w] in t.lemmas && t.lemmas[cache[w]].text == w
  {
  }

  lemma {:induction false} CacheAfterComplete(t0: Tables, lists: seq<seq<string>>, cache0: map<string, nat>, order: seq<string>)
    requires WellFormed(t0) && CacheFaithful(cache0, t0)
    ensures forall w :: w in StoredTexts(InsertLemmaRows(t0, order).lemmas) ==> w in CacheAfter(cache0, order, t0.nextLemmaId)
  {
    var t1, next := InsertLemmaRows(t0, order), t0.nextLemmaId;
    NewLemmaRows(t0, order);
    forall w | w in StoredTexts(t1.lemmas)
      ensures w in CacheAfter(cache0, order, next)
    {
      var k :| k in t1.lemmas && t1.lemmas[k].text == w;
      if k in t0.lemmas {
        assert t0.lemmas[k].text in StoredTexts(t0.lemmas);
      } else {
        assert t1.lemmas[k] == NewLemma(order[k - next]);
      }
    }
  }

  /** The index of rows depends on their ids and texts only. */
  lemma {:induction false} TextIndexOfSameTexts(a: map<nat, Lemma>, b: map<nat, Lemma>, m: map<string, nat>)
    requires UniqueTexts(a) && m == TextIndex(a, None)
    requires forall k :: k in b <==> k in a
    requires forall k :: k in a ==> b[k].text == a[k].text
    ensures UniqueTexts(b) && m == TextIndex(b, None)
  {
    forall w | w in StoredTexts(b)
      ensures w in StoredTexts(a)
    {
      var k :| k in b && b[k].text == w;
      assert a[k].text == w;
    }
    TextIndexUnique(b, m, None);
  }

  /** A successful commit stores each new text once, under consecutive fresh
      ids. */
  lemma {:induction false} CommitStoresLemmas(t0: Tables, batch: seq<Subtitle>, lists: seq<seq<string>>,
                                              cache0: map<string, nat>, order: seq<string>, rand: nat -> nat)
    requires FlushArgs(batch, lists, cache0, order)
    ensures forall k :: k in Committed(t0, batch, lists, cache0, order, rand).lemmas <==>
      k in t0.lemmas || t0.nextLemmaId <= k < t0.nextLemmaId + |order|
    ensures forall i :: 0 <= i < |order| ==>
      Committed(t0, batch, lists, cache0, order, rand).lemmas[t0.nextLemmaId + i].text == order[i]
  {
    CommittedLemmaRows(t0, batch, lists, cache0, order, rand);
    NewLemmaRows(t0, order);
  }

  /** The lemma insert stores the texts, in order, from the next id on. */
  lemma {:induction false} NewLemmaRows(t0: Tables, order: seq<string>)
    ensures forall k :: k in InsertLemmaRows(t0, order).lemmas <==>
      k in t0.lemmas || t0.nextLemmaId <= k < t0.nextLemmaId + |order|
    ensures forall i :: 0 <= i < |order| ==> InsertLemmaRows(t0, order).lemmas[t0.nextLemmaId + i] == NewLemma(order[i])
    ensures forall k :: k in t0.lemmas && k < t0.nextLemmaId ==> InsertLemmaRows(t0, order).lemmas[k] == t0.lemmas[k]
  {
  }

  /** After a successful commit the cache maps exactly the stored texts to
      the ids of their rows; in particular every lemma of the batch is cached
      under the id of the row with its text. */
  lemma {:induction false} CommitCachesLemmas(t0: Tables, batch: seq<Subtitle>, lists: seq<seq<string>>,
                                              cache0: map<string, nat>, order: seq<string>, rand: nat -> nat)
    requires FlushArgs(batch, lists, cache0, order)
    requires WellFormed(t0) && CacheFaithful(cache0, t0)
    ensures CacheFaithful(CacheAfter(cache0, order, t0.nextLemmaId), Committed(t0, batch, lists, cache0, order, rand))
    ensures forall w :: w in BatchLemmas(lists) ==>
      && w in CacheAfter(cache0, order, t0.nextLemmaId)
      && CacheAfter(cache0, order, t0.nextLemmaId)[w] in Committed(t0, batch, lists, cache0, order, rand).lemmas
      && Committed(t0, batch, lists, cache0, order, rand).lemmas[CacheAfter(cache0, order, t0.nextLemmaId)[w]].text == w
  {
    var r := Committed(t0, batch, lists, cache0, order, rand);
    CommittedLemmaRows(t0, batch, lists, cache0, order, rand);
    CacheAfterFaithful(t0, lists, cache0, order);
    TextIndexOfSameTexts(InsertLemmaRows(t0, order).lemmas, r.lemmas, CacheAfter(cache0, order, t0.nextLemmaId));
    CacheAfterCovers(lists, cache0, order, t0.nextLemmaId);
  }

  // --------------------------------------------------- subtitles and relations

  /** A successful commit stores the segments, in order, from the next
      subtitle id on, and the relation rows from the next relation id on. */
  lemma {:induction false} CommitStoresRows(t0: Tables, batch: seq<Subtitle>, lists: seq<seq<string>>,
                                            cache0: map<string, nat>, order: seq<string>, rand: nat -> nat)
    requires FlushArgs(batch, lists, cache0, order)
    ensures Committed(t0, batch, lists, cache0, order, rand).subtitles == Appended(t0.subtitles, t0.nextSubtitleId, batch)
    ensures Committed(t0, batch, lists, cache0, order, rand).nextSubtitleId == t0.nextSubtitleId + |batch|
    ensures Committed(t0, batch, lists, cache0, order, rand).relations
      == Appended(t0.relations, t0.nextRelationId, CommitRelations(t0, batch, lists, cache0, order))
    ensures Committed(t0, batch, lists, cache0, order, rand).nextRelationId
      == t0.nextRelationId + |CommitRelations(t0, batch, lists, cache0, order)|
    ensures Committed(t0, batch, lists, cache0, order, rand).nextLemmaId == t0.nextLemmaId + |order|
  {
    InsertRelationRowsEffect(InsertSubtitleRows(InsertLemmaRows(t0, order), batch), CommitRelations(t0, batch, lists, cache0, order));
  }

  /** Each segment is stored under the id its relation rows use, however
      many segments share its natural key. */
  lemma {:induction false} CommitSubtitleIds(t0: Tables, batch: seq<Subtitle>, lists: seq<seq<string>>,
                                             cache0: map<string, nat>, order: seq<string>, rand: nat -> nat, i: nat)
    requires FlushArgs(batch, lists, cache0, order) && i < |batch|
    ensures SubtitleIds(batch, t0.nextSubtitleId)[i] in Committed(t0, batch, lists, cache0, order, rand).subtitles
    ensures Committed(t0, batch, lists, cache0, order, rand).subtitles[SubtitleIds(batch, t0.nextSubtitleId)[i]] == batch[i]
  {
    CommitStoresRows(t0, batch, lists, cache0, order, rand);
    SubtitleIdStored(t0.subtitles, t0.nextSubtitleId, batch, i);
  }

  lemma {:induction false} SubtitleIdStored(m: map<nat, Subtitle>, start: nat, batch: seq<Subtitle>, i: nat)
    requires i < |batch|
    ensures SubtitleIds(batch, start)[i] in Appended(m, start, batch)
    ensures Appended(m, start, batch)[SubtitleIds(batch, start)[i]] == batch[i]
  {
    AppendedPos(m, start, batch, LastIndexOf(batch, batch[i]));
  }

  /** After a successful commit, every lemma occurrence of every segment has
      a relation row linking the segment's row to the row of the lemma's
      text. */
  lemma {:induction false} CommitLinksOccurrence(t0: Tables, batch: seq<Subtitle>, lists: seq<seq<string>>,
                                                 cache0: map<string, nat>, order: seq<string>, rand: nat -> nat, i: nat, j: nat)
    requires FlushArgs(batch, lists, cache0, order) && WellFormed(t0) && CacheFaithful(cache0, t0)
    requires i < |batch| && j < |lists[i]|
    ensures exists q :: Linked(Committed(t0, batch, lists, cache0, order, rand), q, batch[i], lists[i][j])
  {
    CommitStoresRows(t0, batch, lists, cache0, order, rand);
    var q := OccurrenceRow(t0, batch, lists, cache0, order, Committed(t0, batch, lists, cache0, order, rand).relations, i, j);
    CommitSubtitleIds(t0, batch, lists, cache0, order, rand, i);
    CommitCachesLemma(t0, batch, lists, cache0, order, rand, lists[i][j]);
    LinkedRow(Committed(t0, batch, lists, cache0, order, rand), q,
              SubtitleLemma(SubtitleIds(batch, t0.nextSubtitleId)[i], CacheAfter(cache0, order, t0.nextLemmaId)[lists[i][j]]),
              batch[i], lists[i][j]);
  }

  /** The relation row of one lemma occurrence, with its id, among the
      relation rows of a successful commit. */
  lemma {:induction false} OccurrenceRow(t0: Tables, batch: seq<Subtitle>, lists: seq<seq<string>>,
                                         cache0: map<string, nat>, order: seq<string>,
                                         relations: map<nat, SubtitleLemma>, i: nat, j: nat)
      returns (q: nat)
    requires FlushArgs(batch, lists, cache0, order) && i < |batch| && j < |lists[i]|
    requires relations == Appended(t0.relations, t0.nextRelationId, CommitRelations(t0, batch, lists, cache0, order))
    ensures lists[i][j] in CacheAfter(cache0, order, t0.nextLemmaId)
    ensures q in relations
    ensures relations[q] == SubtitleLemma(SubtitleIds(batch, t0.nextSubtitleId)[i], CacheAfter(cache0, order, t0.nextLemmaId)[lists[i][j]])
  {
    var cache, ids := CacheAfter(cache0, order, t0.nextLemmaId), SubtitleIds(batch, t0.nextSubtitleId);
    var rels := CommitRelations(t0, batch, lists, cache0, order);
    CacheAfterCovers(lists, cache0, order, t0.nextLemmaId);
    RelationRowsCover(lists, ids, cache, i, j);
    var p :| 0 <= p < |rels| && rels[p] == SubtitleLemma(ids[i], cache[lists[i][j]]);
    q := t0.nextRelationId + p;
    StoredAt(relations, t0.relations, t0.nextRelationId, rels, p, q);
  }

  /** One lemma of the batch is cached under the id of its committed row. */
  lemma {:induction false} CommitCachesLemma(t0: Tables, batch: seq<Subtitle>, lists: seq<seq<string>>,
                                             cache0: map<string, nat>, order: seq<string>, rand: nat -> nat, w: string)
    requires FlushArgs(batch, lists, cache0, order) && WellFormed(t0) && CacheFaithful(cache0, t0)
    requires w in BatchLemmas(lists)
    ensures w in CacheAfter(cache0, order, t0.nextLemmaId)
    ensures CacheAfter(cache0, order, t0.nextLemmaId)[w] in Committed(t0, batch, lists, cache0, order, rand).lemmas
    ensures Committed(t0, batch, lists, cache0, order, rand).lemmas[CacheAfter(cache0, order, t0.nextLemmaId)[w]].text == w
  {
    CommitCachesLemmas(t0, batch, lists, cache0, order, rand);
  }

  lemma {:induction false} LinkedRow(t: Tables, q: nat, row: SubtitleLemma, segment: Subtitle, w: string)
    requires q in t.relations && t.relations[q] == row
    requires row.subtitleId in t.subtitles && t.subtitles[row.subtitleId] == segment
    requires row.lemmaId in t.lemmas && t.lemmas[row.lemmaId].text == w
    ensures Linked(t, q, segment, w)
  {
  }

  /** Relation row `q` of `t` links a row holding segment `segment` to a row
      holding the text `w`. */
  predicate Linked(t: Tables, q: nat, segment: Subtitle, w: string) {
    && q in t.relations
    && t.relations[q].subtitleId in t.subtitles && t.subtitles[t.relations[q].subtitleId] == segment
    && t.relations[q].lemmaId in t.lemmas && t.lemmas[t.relations[q].lemmaId].text == w
  }

  /** Conversely, every relation row a successful commit adds links one of
      the segments to one of that segment's lemmas. */
  lemma {:induction false} CommitRelationOrigin(t0: Tables, batch: seq<Subtitle>, lists: seq<seq<string>>,
                                                cache0: map<string, nat>, order: seq<string>, rand: nat -> nat, q: nat)
    requires FlushArgs(batch, lists, cache0, order) && WellFormed(t0) && CacheFaithful(cache0, t0)
    requires q in Committed(t0, batch, lists, cache0, order, rand).relations && q !in t0.relations
    ensures exists i, j ::
      && 0 <= i < |batch| && 0 <= j < |lists[i]|
      && Linked(Committed(t0, batch, lists, cache0, order, rand), q, batch[i], lists[i][j])
  {
    var i, j := RowOrigin(t0, batch, lists, cache0, order, rand, q);
    CommitSubtitleIds(t0, batch, lists, cache0, order, rand, i);
    CommitCachesLemma(t0, batch, lists, cache0, order, rand, lists[i][j]);
    LinkedRow(Committed(t0, batch, lists, cache0, order, rand), q,
              SubtitleLemma(SubtitleIds(batch, t0.nextSubtitleId)[i], CacheAfter(cache0, order, t0.nextLemmaId)[lists[i][j]]),
              batch[i], lists[i][j]);
  }

  /** The segment and lemma occurrence a new relation row comes from. */
  lemma {:induction false} RowOrigin(t0: Tables, batch: seq<Subtitle>, lists: seq<seq<string>>,
                                     cache0: map<string, nat>, order: seq<string>, rand: nat -> nat, q: nat)
      returns (i: nat, j: nat)
    requires FlushArgs(batch, lists, cache0, order) && WellFormed(t0)
    requires q in Committed(t0, batch, lists, cache0, order, rand).relations && q !in t0.relations
    ensures i < |batch| && j < |lists[i]| && lists[i][j] in BatchLemmas(lists)
    ensures lists[i][j] in CacheAfter(cache0, order, t0.nextLemmaId)
    ensures Committed(t0, batch, lists, cache0, order, rand).relations[q]
      == SubtitleLemma(SubtitleIds(batch, t0.nextSubtitleId)[i], CacheAfter(cache0, order, t0.nextLemmaId)[lists[i][j]])
  {
    var cache, ids := CacheAfter(cache0, order, t0.nextLemmaId), SubtitleIds(batch, t0.nextSubtitleId);
    var rels := CommitRelations(t0, batch, lists, cache0, order);
    CacheAfterCovers(lists, cache0, order, t0.nextLemmaId);
    CommitStoresRows(t0, batch, lists, cache0, order, rand);
    AppendedAt(t0.relations, t0.nextRelationId, rels, q);
    RelationRowsFrom(lists, ids, cache, q - t0.nextRelationId);
    i, j :| 0 <= i < |lists| && 0 <= j < |lists[i]| && rels[q - t0.nextRelationId] == SubtitleLemma(ids[i], cache[lists[i][j]]);
  }

  /** The number of lemma occurrences of the batch. */
  function TotalOccurrences(lists: seq<seq<string>>): nat {
    if lists == [] then 0 else TotalOccurrences(lists[..|lists| - 1]) + |lists[|lists| - 1]|
  }

  /** One relation row per lemma occurrence. */
  lemma {:induction false} RelationRowsLength(lists: seq<seq<string>>, subIds: seq<nat>, cache: map<string, nat>)
    requires |subIds| == |lists| && AllCached(lists, cache)
    ensures |RelationRows(lists, subIds, cache)| == TotalOccurrences(lists)
  {
    if lists != [] {
      var n := |lists| - 1;
      RelationRowsLength(lists[..n], subIds[..n], cache);
    }
  }

  // ------------------------------------------------- frequencies and cards

  /** What becomes of an inserted lemma row in the rest of a commit: the
      triggers raise its frequency by its number of new relation rows, and
      the bulk update sets its card when it has one. */
  lemma {:induction false} CommittedLemmaRow(t0: Tables, batch: seq<Subtitle>, lists: seq<seq<string>>,
                                             cache0: map<string, nat>, order: seq<string>, rand: nat -> nat, k: nat)
    requires FlushArgs(batch, lists, cache0, order)
    requires k in InsertLemmaRows(t0, order).lemmas
    ensures k in Committed(t0, batch, lists, cache0, order, rand).lemmas
    ensures var row, cards := InsertLemmaRows(t0, order).lemmas[k], CommitCards(t0, batch, lists, cache0, order, rand);
      Committed(t0, batch, lists, cache0, order, rand).lemmas[k]
        == row.(frequency := row.frequency + CountIn(CommitRelations(t0, batch, lists, cache0, order), k),
                cardSubtitle := if k in cards then Some(cards[k]) else row.cardSubtitle)
  {
    InsertRelationRowsEffect(InsertSubtitleRows(InsertLemmaRows(t0, order), batch), CommitRelations(t0, batch, lists, cache0, order));
  }

  /** The cache tells the lemmas of the batch apart once it is faithful. */
  lemma {:induction false} CacheAfterInjective(t0: Tables, lists: seq<seq<string>>, cache0: map<string, nat>, order: seq<string>)
    requires WellFormed(t0) && CacheFaithful(cache0, t0)
    requires Enumerates(order, BatchLemmas(lists) - cache0.Keys)
    ensures CacheInjective(lists, CacheAfter(cache0, order, t0.nextLemmaId))
  {
    var cache, t1 := CacheAfter(cache0, order, t0.nextLemmaId), InsertLemmaRows(t0, order);
    CacheAfterFaithful(t0, lists, cache0, order);
    forall a, b | a in BatchLemmas(lists) && b in BatchLemmas(lists) && a in cache && b in cache && cache[a] == cache[b]
      ensures a == b
    {
      FaithfulLookup(cache, t1, a);
      FaithfulLookup(cache, t1, b);
    }
  }

  /** Before the relation rows, a lemma of the batch has its old frequency
      when it was cached and frequency 0 when it is new. */
  lemma {:induction false} FrequencyBefore(t0: Tables, lists: seq<seq<string>>, cache0: map<string, nat>, order: seq<string>, w: string)
    requires WellFormed(t0) && CacheFaithful(cache0, t0)
    requires Enumerates(order, BatchLemmas(lists) - cache0.Keys) && w in BatchLemmas(lists)
    ensures w in CacheAfter(cache0, order, t0.nextLemmaId)
    ensures CacheAfter(cache0, order, t0.nextLemmaId)[w] in InsertLemmaRows(t0, order).lemmas
    ensures w in cache0 ==> cache0[w] in t0.lemmas
    ensures InsertLemmaRows(t0, order).lemmas[CacheAfter(cache0, order, t0.nextLemmaId)[w]].frequency
      == if w in cache0 then t0.lemmas[cache0[w]].frequency else 0
  {
    if w in cache0 {
      CachedTextRow(t0, cache0, order, w);
    } else {
      NewTextRow(t0, cache0, order, w);
    }
  }

  /** A text cached before the commit keeps its id and its row. */
  lemma {:induction false} CachedTextRow(t0: Tables, cache0: map<string, nat>, order: seq<string>, w: string)
    requires WellFormed(t0) && CacheFaithful(cache0, t0) && w in cache0 && w !in order
    ensures w in CacheAfter(cache0, order, t0.nextLemmaId) && CacheAfter(cache0, order, t0.nextLemmaId)[w] == cache0[w]
    ensures cache0[w] in t0.lemmas && cache0[w] in InsertLemmaRows(t0, order).lemmas
    ensures InsertLemmaRows(t0, order).lemmas[cache0[w]] == t0.lemmas[cache0[w]]
  {
    CacheAfterAt(cache0, order, t0.nextLemmaId, w);
    FaithfulLookup(cache0, t0, w);
    AppendedOld(t0.lemmas, t0.nextLemmaId, NewLemmas(order), cache0[w]);
  }

  /** A new text is cached under the id of its new row. */
  lemma {:induction false} NewTextRow(t0: Tables, cache0: map<string, nat>, order: seq<string>, w: string)
    requires w in order
    ensures w in CacheAfter(cache0, order, t0.nextLemmaId)
    ensures CacheAfter(cache0, order, t0.nextLemmaId)[w] in InsertLemmaRows(t0, order).lemmas
    ensures InsertLemmaRows(t0, order).lemmas[CacheAfter(cache0, order, t0.nextLemmaId)[w]] == NewLemma(w)
  {
    var i, next := IndexOf(order, w), t0.nextLemmaId;
    CacheAfterAt(cache0, order, next, w);
    var id := CacheAfter(cache0, order, next)[w];
    StoredAt(InsertLemmaRows(t0, order).lemmas, t0.lemmas, next, NewLemmas(order), i, id);
    assert NewLemmas(order)[i] == NewLemma(w);
  }

  /** After a successful commit, the row of each lemma of the batch counts
      its occurrences in the batch on top of what it had: nothing for a new
      lemma, its old frequency for one already cached. */
  lemma {:induction false} CommitFrequency(t0: Tables, batch: seq<Subtitle>, lists: seq<seq<string>>,
                                           cache0: map<string, nat>, order: seq<string>, rand: nat -> nat, w: string)
    requires FlushArgs(batch, lists, cache0, order) && WellFormed(t0) && CacheFaithful(cache0, t0)
    requires w in BatchLemmas(lists)
    ensures w in CacheAfter(cache0, order, t0.nextLemmaId)
    ensures CacheAfter(cache0, order, t0.nextLemmaId)[w] in Committed(t0, batch, lists, cache0, order, rand).lemmas
    ensures w in cache0 ==> cache0[w] in t0.lemmas
    ensures Committed(t0, batch, lists, cache0, order, rand).lemmas[CacheAfter(cache0, order, t0.nextLemmaId)[w]].frequency
      == (if w in cache0 then t0.lemmas[cache0[w]].frequency else 0) + Occurrences(lists, w)
  {
    var cache := CacheAfter(cache0, order, t0.nextLemmaId);
    FrequencyBefore(t0, lists, cache0, order, w);
    CommittedLemmaRow(t0, batch, lists, cache0, order, rand, cache[w]);
    CacheAfterInjective(t0, lists, cache0, order);
    CacheAfterCovers(lists, cache0, order, t0.nextLemmaId);
    RelationRowsCount(lists, SubtitleIds(batch, t0.nextSubtitleId), cache, w);
  }

  /** A lemma row whose text is not in the batch comes out of a successful
      commit exactly as it went in. */
  lemma {:induction false} CommitKeepsOtherLemmas(t0: Tables, batch: seq<Subtitle>, lists: seq<seq<string>>,
                                                  cache0: map<string, nat>, order: seq<string>, rand: nat -> nat, k: nat)
    requires FlushArgs(batch, lists, cache0, order) && WellFormed(t0) && CacheFaithful(cache0, t0)
    requires k in t0.lemmas && t0.lemmas[k].text !in BatchLemmas(lists)
    ensures k in Committed(t0, batch, lists, cache0, order, rand).lemmas
    ensures Committed(t0, batch, lists, cache0, order, rand).lemmas[k] == t0.lemmas[k]
  {
    var cache, t1 := CacheAfter(cache0, order, t0.nextLemmaId), InsertLemmaRows(t0, order);
    AppendedOld(t0.lemmas, t0.nextLemmaId, NewLemmas(order), k);
    CommittedLemmaRow(t0, batch, lists, cache0, order, rand, k);
    NotCachedUnder(t0, lists, cache0, order, k);
    CacheAfterCovers(lists, cache0, order, t0.nextLemmaId);
    RelationRowsNone(lists, SubtitleIds(batch, t0.nextSubtitleId), cache, k);
  }

  /** No lemma of the batch is cached under the id of a row with another
      text, so that row gets no relation row and no card. */
  lemma {:induction false} NotCachedUnder(t0: Tables, lists: seq<seq<string>>, cache0: map<string, nat>, order: seq<string>, k: nat)
    requires WellFormed(t0) && CacheFaithful(cache0, t0)
    requires Enumerates(order, BatchLemmas(lists) - cache0.Keys)
    requires k in t0.lemmas && t0.lemmas[k].text !in BatchLemmas(lists)
    ensures forall a :: a in BatchLemmas(lists) && a in CacheAfter(cache0, order, t0.nextLemmaId) ==>
      CacheAfter(cache0, order, t0.nextLemmaId)[a] != k
    ensures BatchLemmas(lists) <= CacheAfter(cache0, order, t0.nextLemmaId).Keys
    ensures k !in LemmaIdsOf(BatchLemmas(lists), CacheAfter(cache0, order, t0.nextLemmaId))
  {
    var cache, t1 := CacheAfter(cache0, order, t0.nextLemmaId), InsertLemmaRows(t0, order);
    CacheAfterFaithful(t0, lists, cache0, order);
    CacheAfterCovers(lists, cache0, order, t0.nextLemmaId);
    AppendedOld(t0.lemmas, t0.nextLemmaId, NewLemmas(order), k);
    forall a | a in BatchLemmas(lists) && a in cache
      ensures cache[a] != k
    {
      FaithfulLookup(cache, t1, a);
    }
  }

  /** After a successful commit, every lemma of the batch has a card: one of
      the stored segments that contain it. */
  lemma {:induction false} CommitCard(t0: Tables, batch: seq<Subtitle>, lists: seq<seq<string>>,
                                      cache0: map<string, nat>, order: seq<string>, rand: nat -> nat, w: string)
    requires FlushArgs(batch, lists, cache0, order) && WellFormed(t0) && CacheFaithful(cache0, t0)
    requires w in BatchLemmas(lists)
    ensures w in CacheAfter(cache0, order, t0.nextLemmaId)
    ensures CacheAfter(cache0, order, t0.nextLemmaId)[w] in Committed(t0, batch, lists, cache0, order, rand).lemmas
    ensures exists i ::
      && 0 <= i < |batch| && w in lists[i]
      && ShowsSegment(Committed(t0, batch, lists, cache0, order, rand), CacheAfter(cache0, order, t0.nextLemmaId)[w], batch[i])
  {
    var cache := CacheAfter(cache0, order, t0.nextLemmaId);
    var c := Committed(t0, batch, lists, cache0, order, rand);
    var i := CardDrawn(t0, batch, lists, cache0, order, rand, w);
    FrequencyBefore(t0, lists, cache0, order, w);
    CommittedLemmaRow(t0, batch, lists, cache0, order, rand, cache[w]);
    CommitSubtitleIds(t0, batch, lists, cache0, order, rand, i);
    assert ShowsSegment(c, cache[w], batch[i]);
  }

  /** Lemma row `k` of `t` has as its card a row holding `segment`. */
  predicate ShowsSegment(t: Tables, k: nat, segment: Subtitle) {
    && k in t.lemmas && t.lemmas[k].cardSubtitle.Some?
    && t.lemmas[k].cardSubtitle.value in t.subtitles && t.subtitles[t.lemmas[k].cardSubtitle.value] == segment
  }

  /** The card drawn for a lemma of the batch is the id of a segment that
      contains the lemma. */
  lemma {:induction false} CardDrawn(t0: Tables, batch: seq<Subtitle>, lists: seq<seq<string>>,
                                     cache0: map<string, nat>, order: seq<string>, rand: nat -> nat, w: string)
      returns (i: nat)
    requires FlushArgs(batch, lists, cache0, order) && WellFormed(t0) && CacheFaithful(cache0, t0)
    requires w in BatchLemmas(lists)
    ensures w in CacheAfter(cache0, order, t0.nextLemmaId)
    ensures CacheAfter(cache0, order, t0.nextLemmaId)[w] in CommitCards(t0, batch, lists, cache0, order, rand)
    ensures i < |batch| && w in lists[i]
    ensures CommitCards(t0, batch, lists, cache0, order, rand)[CacheAfter(cache0, order, t0.nextLemmaId)[w]]
      == SubtitleIds(batch, t0.nextSubtitleId)[i]
  {
    var cache, sids := CacheAfter(cache0, order, t0.nextLemmaId), SubtitleIds(batch, t0.nextSubtitleId);
    var rels := CommitRelations(t0, batch, lists, cache0, order);
    var ids := LemmaIdsOf(BatchLemmas(lists), cache);
    CacheAfterCovers(lists, cache0, order, t0.nextLemmaId);
    var i0, j0 :| 0 <= i0 < |lists| && 0 <= j0 < |lists[i0]| && lists[i0][j0] == w;
    RelationRowsCover(lists, sids, cache, i0, j0);
    KeyHasCard(rels, ids, rand, cache[w], sids[i0]);
    CacheAfterInjective(t0, lists, cache0, order);
    i := RowSegment(lists, sids, cache, Cards(rels, ids, rand)[cache[w]], w);
  }

  /** A lemma with a relation row is given a card. */
  lemma {:induction false} KeyHasCard(rels: seq<SubtitleLemma>, ids: set<nat>, rand: nat -> nat, k: nat, s: nat)
    requires k in ids && SubtitleLemma(s, k) in rels
    ensures k in Cards(rels, ids, rand)
  {
    assert s in Associated(rels, k);
  }

  /** A relation row naming a lemma's id comes from a segment containing
      that lemma. */
  lemma {:induction false} RowSegment(lists: seq<seq<string>>, subIds: seq<nat>, cache: map<string, nat>, s: nat, w: string)
      returns (i: nat)
    requires |subIds| == |lists| && AllCached(lists, cache) && CacheInjective(lists, cache)
    requires w in BatchLemmas(lists) && w in cache
    requires SubtitleLemma(s, cache[w]) in RelationRows(lists, subIds, cache)
    ensures i < |lists| && w in lists[i] && s == subIds[i]
  {
    var rels := RelationRows(lists, subIds, cache);
    var p :| 0 <= p < |rels| && rels[p] == SubtitleLemma(s, cache[w]);
    RelationRowsFrom(lists, subIds, cache, p);
    var j: nat;
    i, j :| 0 <= i < |lists| && 0 <= j < |lists[i]| && rels[p] == SubtitleLemma(subIds[i], cache[lists[i][j]]);
    assert lists[i][j] in BatchLemmas(lists);
  }

  // ---------------------------------------------------- the index as a whole

  /** A successful commit on a consistent index with a faithful cache
      leaves a consistent index: every frequency counts its relation rows,
      every relation row resolves, every card is a related subtitle. */
  lemma {:induction false} CommitKeepsIndex(t0: Tables, batch: seq<Subtitle>, lists: seq<seq<string>>,
                                            cache0: map<string, nat>, order: seq<string>, rand: nat -> nat)
    requires FlushArgs(batch, lists, cache0, order)
    requires WellFormed(t0) && Indexed(t0) && CacheFaithful(cache0, t0)
    ensures WellFormed(Committed(t0, batch, lists, cache0, order, rand))
    ensures Indexed(Committed(t0, batch, lists, cache0, order, rand))
  {
    var t1 := InsertLemmaRows(t0, order);
    var t2 := InsertSubtitleRows(t1, batch);
    var rels := CommitRelations(t0, batch, lists, cache0, order);
    var t3 := InsertRelationRows(t2, rels);
    NewTextsFresh(t0, lists, cache0, order);
    InsertLemmaRowsWellFormed(t0, order);
    InsertLemmaRowsIndexed(t0, order);
    InsertSubtitleRowsWellFormed(t1, batch);
    InsertSubtitleRowsIndexed(t1, batch);
    CommitRowsResolve(t0, batch, lists, cache0, order);
    InsertRelationRowsWellFormed(t2, rels);
    InsertRelationRowsIndexed(t2, rels);
    CommitCardsRelated(t0, batch, lists, cache0, order, rand);
    SetCardsWellFormed(t3, CommitCards(t0, batch, lists, cache0, order, rand));
    SetCardsIndexed(t3, CommitCards(t0, batch, lists, cache0, order, rand));
  }

  /** The relation rows of a commit name stored subtitles and lemmas. */
  lemma {:induction false} CommitRowsResolve(t0: Tables, batch: seq<Subtitle>, lists: seq<seq<string>>,
                                             cache0: map<string, nat>, order: seq<string>)
    requires FlushArgs(batch, lists, cache0, order) && WellFormed(t0) && CacheFaithful(cache0, t0)
    ensures RowsResolve(InsertSubtitleRows(InsertLemmaRows(t0, order), batch), CommitRelations(t0, batch, lists, cache0, order))
  {
    var t1 := InsertLemmaRows(t0, order);
    var t2 := InsertSubtitleRows(t1, batch);
    var rels := CommitRelations(t0, batch, lists, cache0, order);
    var cache, sids := CacheAfter(cache0, order, t0.nextLemmaId), SubtitleIds(batch, t0.nextSubtitleId);
    CacheAfterCovers(lists, cache0, order, t0.nextLemmaId);
    CacheAfterFaithful(t0, lists, cache0, order);
    forall q | 0 <= q < |rels|
      ensures rels[q].subtitleId in t2.subtitles && rels[q].lemmaId in t2.lemmas
    {
      RelationRowsFrom(lists, sids, cache, q);
      var i, j :| 0 <= i < |lists| && 0 <= j < |lists[i]| && rels[q] == SubtitleLemma(sids[i], cache[lists[i][j]]);
      SubtitleIdStored(t1.subtitles, t1.nextSubtitleId, batch, i);
      FaithfulLookup(cache, t1, lists[i][j]);
    }
  }

  /** Each card of a commit is related to its lemma once the relation rows
      are in. */
  lemma {:induction false} CommitCardsRelated(t0: Tables, batch: seq<Subtitle>, lists: seq<seq<string>>,
                                              cache0: map<string, nat>, order: seq<string>, rand: nat -> nat)
    requires FlushArgs(batch, lists, cache0, order)
    ensures CardsRelated(InsertRelationRows(InsertSubtitleRows(InsertLemmaRows(t0, order), batch), CommitRelations(t0, batch, lists, cache0, order)),
                         CommitCards(t0, batch, lists, cache0, order, rand))
  {
    InsertRelationRowsRelate(InsertSubtitleRows(InsertLemmaRows(t0, order), batch), CommitRelations(t0, batch, lists, cache0, order),
                             CommitCards(t0, batch, lists, cache0, order, rand));
  }

  /** Whatever its outcome, a commit on a consistent index with a faithful
      cache leaves a consistent index; after a successful one the cache is
      faithful again. */
  lemma {:induction false} FlushKeepsIndex(tablesExist: bool, maxVariables: nat, t0: Tables, batch: seq<Subtitle>,
                                           lists: seq<seq<string>>, cache0: map<string, nat>, order: seq<string>, rand: nat -> nat)
    requires FlushArgs(batch, lists, cache0, order)
    requires WellFormed(t0) && Indexed(t0) && CacheFaithful(cache0, t0)
    ensures WellFormed(Flush(tablesExist, maxVariables, t0, batch, lists, cache0, order, rand).tables)
    ensures Indexed(Flush(tablesExist, maxVariables, t0, batch, lists, cache0, order, rand).tables)
    ensures Flush(tablesExist, maxVariables, t0, batch, lists, cache0, order, rand).outcome.Pass? ==>
      CacheFaithful(Flush(tablesExist, maxVariables, t0, batch, lists, cache0, order, rand).cache,
                    Flush(tablesExist, maxVariables, t0, batch, lists, cache0, order, rand).tables)
  {
    if Flush(tablesExist, maxVariables, t0, batch, lists, cache0, order, rand).outcome.Pass? {
      FlushSucceeds(tablesExist, maxVariables, t0, batch, lists, cache0, order, rand);
      CommitKeepsIndex(t0, batch, lists, cache0, order, rand);
      CommitCachesLemmas(t0, batch, lists, cache0, order, rand);
    } else {
      FailedFlushRollsBack(false, tablesExist, maxVariables, t0, batch, lists, cache0, order, rand);
    }
  }

  // ------------------------------------------------ a batch without lemmas

  /** A batch none of whose segments has a lemma has nothing new to insert,
      no relation rows and no cards. */
  lemma {:induction false} NoLemmasNothingToLink(t0: Tables, batch: seq<Subtitle>, lists: seq<seq<string>>,
                                                 cache0: map<string, nat>, order: seq<string>, rand: nat -> nat)
    requires FlushArgs(batch, lists, cache0, order) && BatchLemmas(lists) == {}
    ensures order == []
    ensures CommitRelations(t0, batch, lists, cache0, order) == []
    ensures CommitCards(t0, batch, lists, cache0, order, rand) == map[]
  {
    EnumeratesNone(order, BatchLemmas(lists) - cache0.Keys);
    CacheAfterCovers(lists, cache0, order, t0.nextLemmaId);
    RelationRowsEmpty(lists, SubtitleIds(batch, t0.nextSubtitleId), CacheAfter(cache0, order, t0.nextLemmaId));
    var cards := CommitCards(t0, batch, lists, cache0, order, rand);
    assert cards.Keys == {};
  }

  /** As written, a batch without any lemma fails at the `groupby` of line
      137 even when every statement before it could pass, and its segments
      are rolled back. */
  lemma {:induction false} NoLemmasAsWritten(maxVariables: nat, t0: Tables, batch: seq<Subtitle>, lists: seq<seq<string>>,
                                             cache0: map<string, nat>, order: seq<string>, rand: nat -> nat)
    requires FlushArgs(batch, lists, cache0, order) && BatchLemmas(lists) == {}
    requires SubtitleInsertParams * |batch| <= maxVariables
    ensures FlushAsWritten(true, maxVariables, t0, batch, lists, cache0, order, rand).outcome == Fail(MissingColumn("lemma_id"))
    ensures FlushAsWritten(true, maxVariables, t0, batch, lists, cache0, order, rand).tables == t0
  {
    NoLemmasNothingToLink(t0, batch, lists, cache0, order, rand);
  }

  /** As intended, such a batch stores its segments and changes nothing else. */
  lemma {:induction false} NoLemmasIntended(maxVariables: nat, t0: Tables, batch: seq<Subtitle>, lists: seq<seq<string>>,
                                            cache0: map<string, nat>, order: seq<string>, rand: nat -> nat)
    requires FlushArgs(batch, lists, cache0, order) && BatchLemmas(lists) == {}
    requires SubtitleInsertParams * |batch| <= maxVariables
    ensures Flush(true, maxVariables, t0, batch, lists, cache0, order, rand).outcome == Pass
    ensures Flush(true, maxVariables, t0, batch, lists, cache0, order, rand).tables == InsertSubtitleRows(t0, batch)
    ensures Flush(true, maxVariables, t0, batch, lists, cache0, order, rand).cache == cache0
  {
    NoLemmasNothingToLink(t0, batch, lists, cache0, order, rand);
    CacheAfterNothing(cache0, t0.nextLemmaId);
    var t1 := InsertLemmaRows(t0, []);
    assert t1.lemmas == t0.lemmas;
    assert t1 == t0;
    var t2 := InsertSubtitleRows(t0, batch);
    assert SetCards(t2, map[]).lemmas == t2.lemmas;
  }

  // ================================================ counting the statements

  /** An enumeration of a set is as long as the set is large. */
  lemma {:induction false} EnumerationSize(order: seq<string>, s: set<string>)
    requires Enumerates(order, s)
    ensures |s| == |order|
    decreases |order|
  {
    if order == [] {
      assert s == {};
    } else {
      var n := |order| - 1;
      var init, rest := order[..n], s - {order[n]};
      assert order == init + [order[n]];
      forall w | w in init
        ensures w in rest
      {
        var i :| 0 <= i < n && init[i] == w;
        assert order[i] != order[n];
      }
      EnumerationSize(init, rest);
    }
  }

  /** The batch has at most as many distinct texts as segments. */
  lemma {:induction false} BatchTextsSize(batch: seq<Subtitle>)
    ensures |BatchTexts(batch)| <= |batch|
    decreases |batch|
  {
    if batch != [] {
      var n := |batch| - 1;
      BatchTextsSize(batch[..n]);
      assert BatchTexts(batch) == BatchTexts(batch[..n]) + {batch[n].text} by {
        forall w | w in BatchTexts(batch)
          ensures w in BatchTexts(batch[..n]) + {batch[n].text}
        {
          var i :| 0 <= i < |batch| && batch[i].text == w;
          if i < n {
            assert batch[..n][i] == batch[i];
          }
        }
      }
    }
  }

  // ================================================= the commit, statement by statement

  /** Lines 84-91: insert the new texts, select them back and cache the ids
      they were given.  On failure the cache is returned as it was. */
  method StoreNewLemmas(db: Database, cache0: map<string, nat>, order: seq<string>, newTexts: set<string>)
      returns (r: Outcome<DbError>, cache: map<string, nat>)
    requires db.Valid() && Enumerates(order, newTexts)
    modifies db
    ensures db.Valid() && db.tablesExist == old(db.tablesExist)
    ensures r == LemmaOutcome(old(db.tablesExist), db.maxVariables, old(db.Contents()), order)
    ensures r.Pass? ==> db.Contents() == InsertLemmaRows(old(db.Contents()), order)
    ensures r.Pass? ==> cache == CacheAfter(cache0, order, old(db.nextLemmaId))
    ensures r.Fail? ==> db.Contents() == old(db.Contents()) && cache == cache0
  {
    cache := cache0;
    if order == [] {
      CacheAfterNothing(cache0, db.nextLemmaId);
      return Pass, cache0;
    }
    ghost var t0 := db.Contents();
    r := db.InsertLemmas(order);
    if r.Fail? {
      return;
    }
    ghost var t1 := db.Contents();
    assert FreshTexts(t0.lemmas, order);
    EnumerationSize(order, newTexts);
    var selected := db.SelectLemmas(Some(newTexts));
    assert selected.Ok?;
    assert db.Contents() == t1;
    var rows := selected.value;
    assert SelectedRows(rows, t1.lemmas, Some(newTexts));
    cache := OverlayRows(cache0, rows);
    SelectedCache(t0, order, newTexts, cache0, rows);
  }

  /** The rows selected after the insert of the new texts, laid over the
      cache, give the cache with the new texts under their new ids. */
  lemma {:induction false} SelectedCache(t0: Tables, order: seq<string>, newTexts: set<string>,
                                         cache0: map<string, nat>, rows: seq<(nat, string)>)
    requires WellFormed(t0) && FreshTexts(t0.lemmas, order) && Enumerates(order, newTexts)
    requires SelectedRows(rows, InsertLemmaRows(t0, order).lemmas, Some(newTexts))
    ensures Overlay(cache0, rows) == CacheAfter(cache0, order, t0.nextLemmaId)
  {
    InsertLemmaRowsWellFormed(t0, order);
    OverlayIndex(cache0, rows, InsertLemmaRows(t0, order).lemmas, Some(newTexts));
    NewIdsIndex(t0, order, newTexts);
  }

  /** Lines 94-119: insert the segments, select the rows with their texts
      and look each segment up by its natural key. */
  method StoreSubtitles(db: Database, batch: seq<Subtitle>) returns (r: Outcome<DbError>, ids: seq<nat>)
    requires db.Valid()
    modifies db
    ensures db.Valid() && db.tablesExist == old(db.tablesExist)
    ensures r == Checked(old(db.tablesExist), db.maxVariables, SubtitleInsertParams * |batch|)
    ensures r.Pass? ==> db.Contents() == InsertSubtitleRows(old(db.Contents()), batch)
    ensures r.Pass? ==> ids == SubtitleIds(batch, old(db.nextSubtitleId))
    ensures r.Fail? ==> db.Contents() == old(db.Contents())
  {
    ghost var t0 := db.Contents();
    ids := [];
    r := db.InsertSubtitles(batch);
    if r.Fail? {
      return;
    }
    ghost var t1 := db.Contents();
    var texts := set i | 0 <= i < |batch| :: batch[i].text;
    assert texts == BatchTexts(batch);
    BatchTextsSize(batch);
    var fetched := db.SelectSubtitles(texts);
    assert fetched.Ok?;
    assert db.Contents() == t1;
    var rows := fetched.value;
    assert FetchedRows(t1.subtitles, BatchTexts(batch), rows);
    var idByKey := OverlayRows(map[], rows);
    BatchKeysFound(t0, batch, rows);
    ids := LookupIds(batch, idByKey);
  }

  /** `sub_id_map.get(...)` for every segment, each of which is found. */
  method LookupIds(batch: seq<Subtitle>, idByKey: map<Subtitle, nat>) returns (ids: seq<nat>)
    requires forall i :: 0 <= i < |batch| ==> batch[i] in idByKey
    ensures |ids| == |batch| && forall i :: 0 <= i < |batch| ==> ids[i] == idByKey[batch[i]]
  {
    ids := [];
    for i := 0 to |batch|
      invariant |ids| == i && forall k :: 0 <= k < i ==> ids[k] == idByKey[batch[k]]
    {
      ids := ids + [idByKey[batch[i]]];
    }
  }

  /** Every segment is found by its natural key among the rows selected
      after the insert, under the id `SubtitleIds` gives it. */
  lemma {:induction false} BatchKeysFound(t0: Tables, batch: seq<Subtitle>, rows: seq<(nat, Subtitle)>)
    requires WellFormed(t0)
    requires FetchedRows(InsertSubtitleRows(t0, batch).subtitles, BatchTexts(batch), rows)
    ensures forall i :: 0 <= i < |batch| ==> batch[i] in Overlay(map[], rows)
    ensures forall i :: 0 <= i < |batch| ==> Overlay(map[], rows)[batch[i]] == SubtitleIds(batch, t0.nextSubtitleId)[i]
  {
    forall i | 0 <= i < |batch|
      ensures batch[i] in Overlay(map[], rows) && Overlay(map[], rows)[batch[i]] == SubtitleIds(batch, t0.nextSubtitleId)[i]
    {
      LookupOfBatch(t0, batch, rows, i);
    }
  }

  /** Lines 122-128: one relation row per lemma occurrence, segment by
      segment. */
  method BuildRelations(lists: seq<seq<string>>, ids: seq<nat>, cache: map<string, nat>) returns (rels: seq<SubtitleLemma>)
    requires |ids| == |lists| && AllCached(lists, cache)
    ensures rels == RelationRows(lists, ids, cache)
  {
    rels := [];
    for i := 0 to |lists|
      invariant AllCached(lists[..i], cache)
      invariant rels == RelationRows(lists[..i], ids[..i], cache)
    {
      assert lists[..i + 1][..i] == lists[..i] && ids[..i + 1][..i] == ids[..i];
      assert lists[..i + 1][i] == lists[i];
      rels := rels + SegmentRelations(ids[i], lists[i], cache);
    }
    assert lists[..|lists|] == lists && ids[..|ids|] == ids;
  }

  /** Lines 78-147, inside `db.atomic()`: the statements in order, the first
      that fails ending the transaction with a rollback.  The cache keeps
      what lines 90-91 put in it either way.  With `keyErrorOnEmpty` it runs
      the code as written (`FlushAsWritten`), otherwise the corrected commit
      (`Flush`). */
  method Commit(db: Database, keyErrorOnEmpty: bool, batch: seq<Subtitle>, lists: seq<seq<string>>, cache0: map<string, nat>,
                order: seq<string>, rand: nat -> nat) returns (r: Outcome<BatchError>, cache: map<string, nat>)
    requires db.Valid() && FlushArgs(batch, lists, cache0, order)
    modifies db
    ensures db.Valid()
    ensures Flushed(r, db.Contents(), cache)
      == FlushWith(keyErrorOnEmpty, old(db.tablesExist), db.maxVariables, old(db.Contents()), batch, lists, cache0, order, rand)
  {
    ghost var t0 := db.Contents();
    ghost var tablesExist := db.tablesExist;
    var snapshot := db.Contents();
    var lemmaStep;
    lemmaStep, cache := StoreNewLemmas(db, cache0, order, BatchLemmas(lists) - cache0.Keys);
    if lemmaStep.Fail? {
      FlushFailsAtLemmas(keyErrorOnEmpty, tablesExist, db.maxVariables, t0, batch, lists, cache0, order, rand);
      return Fail(Database(lemmaStep.error)), cache;
    }
    var subtitleStep, ids := StoreSubtitles(db, batch);
    if subtitleStep.Fail? {
      RollBack(db, snapshot);
      FlushFailsLater(keyErrorOnEmpty, tablesExist, db.maxVariables, t0, batch, lists, cache0, order, rand);
      return Fail(Database(subtitleStep.error)), cache;
    }
    CacheAfterCovers(lists, cache0, order, t0.nextLemmaId);
    var rels := BuildRelations(lists, ids, cache);
    assert rels == CommitRelations(t0, batch, lists, cache0, order);
    var cards := Cards(rels, LemmaIdsOf(BatchLemmas(lists), cache), rand);
    assert cards == CommitCards(t0, batch, lists, cache0, order, rand);
    var linkStep := StoreLinks(db, keyErrorOnEmpty, rels, cards);
    if linkStep.Fail? {
      RollBack(db, snapshot);
      FlushFailsLater(keyErrorOnEmpty, tablesExist, db.maxVariables, t0, batch, lists, cache0, order, rand);
      return linkStep, cache;
    }
    FlushPasses(keyErrorOnEmpty, tablesExist, db.maxVariables, t0, batch, lists, cache0, order, rand);
    r := Pass;
  }

  /** Lines 129-147 once the subtitles are stored: the relation rows are
      inserted unless there are none, then the cards are written unless there
      are none; the first statement that fails ends the commit.  As written
      (`keyErrorOnEmpty`), having no relation rows raises at the `groupby`
      of line 137 before any card is written. */
  method StoreLinks(db: Database, keyErrorOnEmpty: bool, rels: seq<SubtitleLemma>, cards: map<nat, nat>) returns (r: Outcome<BatchError>)
    requires db.Valid()
    modifies db
    ensures db.Valid() && db.tablesExist == old(db.tablesExist)
    ensures var relationStep := RelationOutcome(keyErrorOnEmpty, db.tablesExist, db.maxVariables, rels);
      var cardStep := CardOutcome(db.tablesExist, db.maxVariables, cards);
      r == if relationStep.Fail? then relationStep
           else if cardStep.Fail? then Fail(Database(cardStep.error))
           else Pass
    ensures r.Pass? ==> db.Contents() == SetCards(InsertRelationRows(old(db.Contents()), rels), cards)
  {
    if rels != [] {
      var relationStep := db.InsertRelations(rels);
      if relationStep.Fail? {
        return Fail(Database(relationStep.error));
      }
    } else if keyErrorOnEmpty {
      return Fail(MissingColumn("lemma_id"));
    }
    if cards != map[] {
      var cardStep := db.BulkUpdateCards(cards);
      if cardStep.Fail? {
        return Fail(Database(cardStep.error));
      }
    } else {
      SetCardsNone(db.Contents());
    }
    r := Pass;
  }

  /** The rollback of `db.atomic()`.  Without tables no statement changed
      anything, so there is nothing to roll back. */
  method RollBack(db: Database, snapshot: Tables)
    requires db.Valid() && WellFormed(snapshot) && (db.tablesExist || snapshot == EmptyTables())
    modifies db
    ensures db.Valid() && db.Contents() == snapshot
  {
    if db.tablesExist {
      db.Rollback(snapshot);
    }
  }

  lemma {:induction false} FlushFailsAtLemmas(keyErrorOnEmpty: bool, tablesExist: bool, maxVariables: nat, t0: Tables, batch: seq<Subtitle>,
                                              lists: seq<seq<string>>, cache0: map<string, nat>, order: seq<string>, rand: nat -> nat)
    requires FlushArgs(batch, lists, cache0, order)
    requires LemmaOutcome(tablesExist, maxVariables, t0, order).Fail?
    ensures FlushWith(keyErrorOnEmpty, tablesExist, maxVariables, t0, batch, lists, cache0, order, rand)
      == Flushed(Fail(Database(LemmaOutcome(tablesExist, maxVariables, t0, order).error)), t0, cache0)
  {
  }

  lemma {:induction false} FlushFailsLater(keyErrorOnEmpty: bool, tablesExist: bool, maxVariables: nat, t0: Tables, batch: seq<Subtitle>,
                                           lists: seq<seq<string>>, cache0: map<string, nat>, order: seq<string>, rand: nat -> nat)
    requires FlushArgs(batch, lists, cache0, order)
    requires LemmaOutcome(tablesExist, maxVariables, t0, order).Pass?
    requires LaterOutcome(keyErrorOnEmpty, tablesExist, maxVariables, t0, batch, lists, cache0, order, rand).Fail?
    ensures FlushWith(keyErrorOnEmpty, tablesExist, maxVariables, t0, batch, lists, cache0, order, rand)
      == Flushed(LaterOutcome(keyErrorOnEmpty, tablesExist, maxVariables, t0, batch, lists, cache0, order, rand), t0,
                 CacheAfter(cache0, order, t0.nextLemmaId))
  {
  }

  lemma {:induction false} FlushPasses(keyErrorOnEmpty: bool, tablesExist: bool, maxVariables: nat, t0: Tables, batch: seq<Subtitle>,
                                       lists: seq<seq<string>>, cache0: map<string, nat>, order: seq<string>, rand: nat -> nat)
    requires FlushArgs(batch, lists, cache0, order)
    requires LemmaOutcome(tablesExist, maxVariables, t0, order).Pass?
    requires LaterOutcome(keyErrorOnEmpty, tablesExist, maxVariables, t0, batch, lists, cache0, order, rand).Pass?
    ensures FlushWith(keyErrorOnEmpty, tablesExist, maxVariables, t0, batch, lists, cache0, order, rand)
      == Flushed(Pass, Committed(t0, batch, lists, cache0, order, rand), CacheAfter(cache0, order, t0.nextLemmaId))
  {
  }

  // ============================================================= the processor

  /** The lemma lists `_lemmatize_batch` gives the buffered segments. */
  function LemmaListsOf(batch: seq<Subtitle>, nlp: string -> seq<Token>): (lists: seq<seq<string>>)
    ensures |lists| == |batch|
    ensures forall i :: 0 <= i < |batch| ==> lists[i] == DocLemmas(nlp(batch[i].text))
  {
    seq(|batch|, i requires 0 <= i < |batch| => DocLemmas(nlp(batch[i].text)))
  }

  /** The cache a commit starts from: the one loaded earlier, or the index
      of the stored lemmas when it is loaded now. */
  ghost function CacheBefore(loaded: Option<map<string, nat>>, lemmas: map<nat, Lemma>): map<string, nat> {
    if loaded.Some? then loaded.value else TextIndex(lemmas, None)
  }

  /** `SubtitleProcessor`: the buffer of segments not yet committed and the
      lemma cache, `None` until first loaded. */
  class SubtitleProcessor {
    var subtitlesData: seq<Subtitle>
    var lemmaCache: Option<map<string, nat>>

    /** The index over `db` is consistent and a loaded cache maps exactly the
        stored texts to their ids. */
    ghost predicate Consistent(db: Database)
      reads this, db
    {
      db.Valid() && Indexed(db.Contents()) &&
      (lemmaCache.Some? ==> CacheFaithful(lemmaCache.value, db.Contents()))
    }

    constructor ()
      ensures subtitlesData == [] && lemmaCache == None
    {
      subtitlesData := [];
      lemmaCache := None;
    }

    /** `add`: buffer one segment. */
    method Add(text: string, episode: int, start: int, end: int)
      modifies this`subtitlesData
      ensures subtitlesData == old(subtitlesData) + [Subtitle(text, episode, start, end)]
    {
      subtitlesData := subtitlesData + [Subtitle(text, episode, start, end)];
    }

    /** `_load_cache_if_needed`: on first use, every stored text under the
        id of its row.  A failing select leaves the cache unloaded and is
        raised. */
    method LoadCacheIfNeeded(db: Database) returns (r: Outcome<DbError>)
      requires db.Valid()
      modifies this`lemmaCache, db`connected
      ensures db.Valid() && db.tablesExist == old(db.tablesExist) && db.Contents() == old(db.Contents())
      ensures old(lemmaCache).Some? ==> r == Pass && lemmaCache == old(lemmaCache)
      ensures old(lemmaCache).None? && db.tablesExist ==> r == Pass && lemmaCache == Some(TextIndex(db.lemmas, None))
      ensures old(lemmaCache).None? && !db.tablesExist ==> r == Fail(NoSuchTable) && lemmaCache == None
    {
      if lemmaCache.Some? {
        return Pass;
      }
      var selected := db.SelectLemmas(None);
      if selected.Err? {
        return Fail(selected.error);
      }
      var rows := selected.value;
      assert SelectedRows(rows, db.lemmas, None);
      var cache := OverlayRows(map[], rows);
      OverlayIndex(map[], rows, db.lemmas, None);
      MapsEqual(map[] + TextIndex(db.lemmas, None), TextIndex(db.lemmas, None));
      lemmaCache := Some(cache);
      r := Pass;
    }

    /** `process`: load the cache (a failure is raised before the buffer is
        touched), return at once on an empty buffer, otherwise lemmatise the
        buffer and commit it; the buffer is cleared whatever the commit's
        outcome.  `order` is the iteration order of the new texts. */
    method Process(db: Database, nlp: string -> seq<Token>, rand: nat -> nat)
        returns (r: Outcome<BatchError>, order: seq<string>)
      requires db.Valid()
      modifies this, db
      ensures db.Valid()
      ensures old(lemmaCache).None? && !old(db.tablesExist) ==>
        && r == Fail(Database(NoSuchTable)) && lemmaCache == None
        && subtitlesData == old(subtitlesData) && db.Contents() == old(db.Contents())
      ensures (old(lemmaCache).Some? || old(db.tablesExist)) && old(subtitlesData) == [] ==>
        && r == Pass && lemmaCache == Some(CacheBefore(old(lemmaCache), old(db.lemmas)))
        && subtitlesData == [] && db.Contents() == old(db.Contents())
      ensures (old(lemmaCache).Some? || old(db.tablesExist)) && old(subtitlesData) != [] ==>
        var batch, cache0 := old(subtitlesData), CacheBefore(old(lemmaCache), old(db.lemmas));
        && FlushArgs(batch, LemmaListsOf(batch, nlp), cache0, order)
        && lemmaCache.Some? && subtitlesData == []
        && Flushed(r, db.Contents(), lemmaCache.value)
             == Flush(old(db.tablesExist), db.maxVariables, old(db.Contents()), batch, LemmaListsOf(batch, nlp), cache0, order, rand)
      ensures old(Consistent(db)) ==> Indexed(db.Contents())
      ensures old(Consistent(db)) && r.Pass? ==> Consistent(db)
    {
      order := [];
      var loaded := LoadCacheIfNeeded(db);
      if loaded.Fail? {
        return Fail(Database(loaded.error)), order;
      }
      if subtitlesData == [] {
        return Pass, order;
      }
      var batch, cache0 := subtitlesData, lemmaCache.value;
      var texts := seq(|batch|, i requires 0 <= i < |batch| => batch[i].text);
      var lists := LemmatizeBatch(texts, nlp);
      assert lists == LemmaListsOf(batch, nlp);
      order := Enumerate(BatchLemmas(lists) - cache0.Keys);
      var cache;
      ghost var t0, exist0 := db.Contents(), db.tablesExist;
      r, cache := Commit(db, false, batch, lists, cache0, order, rand);
      if Indexed(t0) && CacheFaithful(cache0, t0) {
        FlushKeepsIndex(exist0, db.maxVariables, t0, batch, lists, cache0, order, rand);
      }
      lemmaCache := Some(cache);
      subtitlesData := [];
    }
  }
}
