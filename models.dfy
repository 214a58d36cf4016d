/**
 * The relational schema of the lemma index: one datatype per table row,
 * the three tables with their auto-increment counters as one value, and the
 * constraints the schema declares or the index is meant to keep.
 *
 * Row ids are `nat`s handed out by per-table counters that start at 1, so
 * every id of a table is positive and below its counter.  Times are whole
 * milliseconds.
 */
module Models {
  import opened Wrappers

  /** A row of `subtitle`: text, episode number, start and end (ms). */
  datatype Subtitle = Subtitle(text: string, episodeNumber: int, startsAt: int, endsAt: int)

  /** A row of `lemma`.  `cardSubtitle` is the nullable foreign key to the
      subtitle shown as the lemma's example sentence. */
  datatype Lemma = Lemma(text: string, frequency: int, definition: Option<string>, cardSubtitle: Option<nat>)

  /** A row of `subtitlelemma`, the many-to-many relation.  It has its own
      auto id; nothing makes the (subtitle, lemma) pair unique. */
  datatype SubtitleLemma = SubtitleLemma(subtitleId: nat, lemmaId: nat)

  /** The contents of the three tables and their next auto-increment ids. */
  datatype Tables = Tables(
    subtitles: map<nat, Subtitle>,
    lemmas: map<nat, Lemma>,
    relations: map<nat, SubtitleLemma>,
    nextSubtitleId: nat,
    nextLemmaId: nat,
    nextRelationId: nat)

  /** Freshly created tables: no rows, every counter at 1. */
  function EmptyTables(): Tables {
    Tables(map[], map[], map[], 1, 1, 1)
  }

  /** The row stored for `{'text': t}`: the defaults of the other columns
      (frequency 0, no definition, no card subtitle). */
  function NewLemma(text: string): Lemma {
    Lemma(text, 0, None, None)
  }

  // ------------------------------------------------------ schema constraints

  /** `text` is declared unique: no two lemma rows share it. */
  predicate UniqueTexts(lemmas: map<nat, Lemma>) {
    forall a, b :: a in lemmas && b in lemmas && lemmas[a].text == lemmas[b].text ==> a == b
  }

  /** Auto-increment ids: positive and below the table's counter. */
  predicate IdsBelow<T>(m: map<nat, T>, next: nat) {
    forall k :: k in m ==> 0 < k < next
  }

  /** What the schema itself guarantees about any state of the tables. */
  predicate WellFormed(t: Tables) {
    && t.nextSubtitleId >= 1 && t.nextLemmaId >= 1 && t.nextRelationId >= 1
    && IdsBelow(t.subtitles, t.nextSubtitleId)
    && IdsBelow(t.lemmas, t.nextLemmaId)
    && IdsBelow(t.relations, t.nextRelationId)
    && UniqueTexts(t.lemmas)
  }

  lemma {:induction false} EmptyTablesWellFormed()
    ensures WellFormed(EmptyTables())
  {
  }

  // -------------------------------------------- the invariants of the index

  /** The number of relation rows that reference lemma `lemma`. */
  function RefCount(relations: map<nat, SubtitleLemma>, lemmaId: nat): nat {
    |RefIds(relations, lemmaId)|
  }

  /** The ids of the relation rows that reference lemma `lemmaId`. */
  function RefIds(relations: map<nat, SubtitleLemma>, lemmaId: nat): set<nat> {
    set k | k in relations && relations[k].lemmaId == lemmaId
  }

  /** Every lemma's `frequency` is the number of relation rows naming it. */
  predicate FrequenciesExact(t: Tables) {
    forall k :: k in t.lemmas ==> t.lemmas[k].frequency == RefCount(t.relations, k)
  }

  /** Every relation row references an existing subtitle and lemma. */
  predicate RelationsResolve(t: Tables) {
    forall k :: k in t.relations ==>
      t.relations[k].subtitleId in t.subtitles && t.relations[k].lemmaId in t.lemmas
  }

  /** A lemma's card subtitle is one of the subtitles related to it. */
  predicate CardsLinked(t: Tables) {
    forall k :: k in t.lemmas && t.lemmas[k].cardSubtitle.Some? ==>
      exists r :: r in t.relations && t.relations[r] == SubtitleLemma(t.lemmas[k].cardSubtitle.value, k)
  }

  /** The consistent state of the index. */
  predicate Indexed(t: Tables) {
    FrequenciesExact(t) && RelationsResolve(t) && CardsLinked(t)
  }

  /** In a consistent index, a card subtitle is an existing subtitle row. */
  lemma {:induction false} CardsResolve(t: Tables, k: nat)
    requires Indexed(t) && k in t.lemmas && t.lemmas[k].cardSubtitle.Some?
    ensures t.lemmas[k].cardSubtitle.value in t.subtitles
  {
    var r :| r in t.relations && t.relations[r] == SubtitleLemma(t.lemmas[k].cardSubtitle.value, k);
  }

  lemma {:induction false} EmptyTablesIndexed()
    ensures Indexed(EmptyTables())
  {
  }

  // -------------------------------------------------------- counting rows

  /** The number of rows of `rows` that name lemma `lemma`. */
  function CountIn(rows: seq<SubtitleLemma>, lemmaId: nat): nat {
    if rows == [] then 0
    else CountIn(rows[..|rows| - 1], lemmaId) + (if rows[|rows| - 1].lemmaId == lemmaId then 1 else 0)
  }

  lemma {:induction false} CountInAppend(a: seq<SubtitleLemma>, b: seq<SubtitleLemma>, lemmaId: nat)
    ensures CountIn(a + b, lemmaId) == CountIn(a, lemmaId) + CountIn(b, lemmaId)
    decreases |b|
  {
    if b == [] {
      assert a + b == a;
    } else {
      assert (a + b)[..|a + b| - 1] == a + b[..|b| - 1];
      CountInAppend(a, b[..|b| - 1], lemmaId);
    }
  }

  /** Rows not naming a lemma do not count for it; a positive count means
      some row names it. */
  lemma {:induction false} CountInPositive(rows: seq<SubtitleLemma>, lemmaId: nat)
    ensures CountIn(rows, lemmaId) > 0 <==> exists i :: 0 <= i < |rows| && rows[i].lemmaId == lemmaId
  {
    if rows != [] {
      var init := rows[..|rows| - 1];
      CountInPositive(init, lemmaId);
      if exists i :: 0 <= i < |init| && init[i].lemmaId == lemmaId {
        var i :| 0 <= i < |init| && init[i].lemmaId == lemmaId;
        assert rows[i] == init[i];
      }
      if exists i :: 0 <= i < |rows| && rows[i].lemmaId == lemmaId {
        var i :| 0 <= i < |rows| && rows[i].lemmaId == lemmaId;
        if i < |rows| - 1 {
          assert init[i] == rows[i];
        }
      }
    }
  }

  /** Adding one relation row under a fresh id raises the count of exactly
      the lemma it names, by one. */
  lemma {:induction false} RefCountInsert(m: map<nat, SubtitleLemma>, id: nat, row: SubtitleLemma, lemmaId: nat)
    requires id !in m
    ensures RefCount(m[id := row], lemmaId) == RefCount(m, lemmaId) + (if row.lemmaId == lemmaId then 1 else 0)
  {
    var before, after := RefIds(m, lemmaId), RefIds(m[id := row], lemmaId);
    if row.lemmaId == lemmaId {
      assert after == before + {id};
    } else {
      assert after == before;
    }
  }

  /** Removing one relation row lowers the count of exactly the lemma it
      names, by one. */
  lemma {:induction false} RefCountRemove(m: map<nat, SubtitleLemma>, id: nat, lemmaId: nat)
    requires id in m
    ensures RefCount(m - {id}, lemmaId) == RefCount(m, lemmaId) - (if m[id].lemmaId == lemmaId then 1 else 0)
  {
    var before, after := RefIds(m, lemmaId), RefIds(m - {id}, lemmaId);
    if m[id].lemmaId == lemmaId {
      assert after == before - {id};
      assert before == after + {id};
    } else {
      assert after == before;
    }
  }

  // ------------------------------------------------ rows under fresh ids

  /** `m` with `rows` stored under the consecutive ids `start`, `start + 1`, …,
      in order, the way a multi-row insert hands out auto-increment ids. */
  function Appended<T>(m: map<nat, T>, start: nat, rows: seq<T>): (r: map<nat, T>)
    ensures forall k :: k in r <==> k in m || start <= k < start + |rows|
    ensures forall i :: 0 <= i < |rows| ==> r[start + i] == rows[i]
    ensures forall k :: k in m && !(start <= k < start + |rows|) ==> r[k] == m[k]
  {
    if rows == [] then m
    else Appended(m, start, rows[..|rows| - 1])[start + |rows| - 1 := rows[|rows| - 1]]
  }

  lemma {:induction false} AppendedSnoc<T>(m: map<nat, T>, start: nat, rows: seq<T>, row: T)
    ensures Appended(m, start, rows + [row]) == Appended(m, start, rows)[start + |rows| := row]
  {
    assert (rows + [row])[..|rows|] == rows;
  }

  lemma {:induction false} AppendedPos<T>(m: map<nat, T>, start: nat, rows: seq<T>, i: nat)
    requires i < |rows|
    ensures start + i in Appended(m, start, rows) && Appended(m, start, rows)[start + i] == rows[i]
  {
  }

  /** The same, for a map known to be the appended one and an id known to
      be the position's. */
  lemma {:induction false} StoredAt<T>(stored: map<nat, T>, m: map<nat, T>, start: nat, rows: seq<T>, p: nat, q: nat)
    requires stored == Appended(m, start, rows) && p < |rows| && q == start + p
    ensures q in stored && stored[q] == rows[p]
  {
    AppendedPos(m, start, rows, p);
  }

  /** Below the first new id, the appended map holds the old rows. */
  lemma {:induction false} AppendedOld<T>(m: map<nat, T>, start: nat, rows: seq<T>, k: nat)
    requires k in m && k < start
    ensures k in Appended(m, start, rows) && Appended(m, start, rows)[k] == m[k]
  {
  }

  /** Every id of the appended map holds either its old row or, among the
      new ids, its row by position. */
  lemma {:induction false} AppendedCases<T>(m: map<nat, T>, start: nat, rows: seq<T>, id: nat)
    requires id in Appended(m, start, rows)
    ensures || (id in m && !(start <= id < start + |rows|) && Appended(m, start, rows)[id] == m[id])
            || (start <= id < start + |rows| && Appended(m, start, rows)[id] == rows[id - start])
  {
    if start <= id < start + |rows| {
      var i := id - start;
      assert Appended(m, start, rows)[start + i] == rows[i];
    }
  }

  /** Above the old ids, the appended map holds the rows by position. */
  lemma {:induction false} AppendedAt<T>(m: map<nat, T>, start: nat, rows: seq<T>, id: nat)
    requires IdsBelow(m, start) && id in Appended(m, start, rows) && id >= start
    ensures id - start < |rows| && Appended(m, start, rows)[id] == rows[id - start]
  {
    assert id !in m;
    var i := id - start;
    assert Appended(m, start, rows)[start + i] == rows[i];
  }

  /** Relation rows stored under ids above every existing one raise each
      lemma's count by the number of new rows naming it. */
  lemma {:induction false} RefCountAppended(m: map<nat, SubtitleLemma>, start: nat, rows: seq<SubtitleLemma>, lemmaId: nat)
    requires IdsBelow(m, start)
    ensures RefCount(Appended(m, start, rows), lemmaId) == RefCount(m, lemmaId) + CountIn(rows, lemmaId)
    decreases |rows|
  {
    if rows == [] {
      assert Appended(m, start, rows) == m;
    } else {
      var init := rows[..|rows| - 1];
      var last := rows[|rows| - 1];
      assert rows == init + [last];
      AppendedSnoc(m, start, init, last);
      RefCountAppended(m, start, init, lemmaId);
      RefCountInsert(Appended(m, start, init), start + |init|, last, lemmaId);
    }
  }
}
