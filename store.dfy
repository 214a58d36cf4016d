/**
 * The relational store behind the lemma index: the three tables of
 * `database/models.py`, the frequency triggers and the set-up and reset
 * procedures of `database/setup.py`, and the statements the subtitle
 * processor issues.
 *
 * The effect of every statement on the rows is a pure function on `Tables`
 * (the first half of this module); the class `Database` carries the mutable
 * state and proves each of its methods against those functions.
 *
 * A statement fails, changing nothing, when the tables do not exist, when a
 * lemma text would be stored twice (the unique constraint), or when it binds
 * more host parameters than the store allows (`maxVariables`, SQLite's
 * SQLITE_MAX_VARIABLE_NUMBER: the ORM binds every value of a multi-row
 * INSERT, of an IN list and of a bulk UPDATE as one parameter).  Foreign keys
 * are declared but not enforced, as SQLite does unless told otherwise; that
 * relation rows resolve is the `Indexed` invariant, proved where it holds.
 */
module Store {
  import opened Wrappers
  import opened Models

  datatype DbError =
    | NoSuchTable
    | ConnectionAlreadyOpen
    | UniqueViolation
    | TooManyVariables

  /** Parameters bound per row: a lemma row binds its text and the default
      frequency, a subtitle row its four columns, a relation row its two
      foreign keys, a bulk update an id and a value in its CASE and the id
      again in its IN list. */
  const LemmaInsertParams: nat := 2
  const SubtitleInsertParams: nat := 4
  const RelationInsertParams: nat := 2
  const BulkUpdateParams: nat := 3

  /** How a statement binding `params` parameters fares before it touches
      any row. */
  function Checked(tablesExist: bool, maxVariables: nat, params: nat): Outcome<DbError> {
    if !tablesExist then Fail(NoSuchTable)
    else if params > maxVariables then Fail(TooManyVariables)
    else Pass
  }

  // ============================================ effects of the statements on rows

  function NewLemmas(texts: seq<string>): (rows: seq<Lemma>)
    ensures |rows| == |texts| && forall i :: 0 <= i < |texts| ==> rows[i] == NewLemma(texts[i])
  {
    seq(|texts|, i requires 0 <= i < |texts| => NewLemma(texts[i]))
  }

  /** `Lemma.insert_many` of one row per text: defaults for the other
      columns, consecutive fresh ids. */
  function InsertLemmaRows(t: Tables, texts: seq<string>): Tables {
    t.(lemmas := Appended(t.lemmas, t.nextLemmaId, NewLemmas(texts)),
       nextLemmaId := t.nextLemmaId + |texts|)
  }

  /** `Subtitle.insert_many`: the rows under consecutive fresh ids, in order. */
  function InsertSubtitleRows(t: Tables, rows: seq<Subtitle>): Tables {
    t.(subtitles := Appended(t.subtitles, t.nextSubtitleId, rows),
       nextSubtitleId := t.nextSubtitleId + |rows|)
  }

  /** One relation row inserted, followed by the increment trigger:
      `UPDATE lemma SET frequency = frequency + 1 WHERE id = NEW.lemma_id`. */
  function InsertRelationRow(t: Tables, row: SubtitleLemma): Tables {
    t.(relations := t.relations[t.nextRelationId := row],
       nextRelationId := t.nextRelationId + 1,
       lemmas := AdjustFrequency(t.lemmas, row.lemmaId, 1))
  }

  /** `UPDATE lemma SET frequency = frequency + delta WHERE id = lemmaId`. */
  function AdjustFrequency(lemmas: map<nat, Lemma>, lemmaId: nat, delta: int): map<nat, Lemma> {
    if lemmaId in lemmas
    then lemmas[lemmaId := lemmas[lemmaId].(frequency := lemmas[lemmaId].frequency + delta)]
    else lemmas
  }

  /** `SubtitleLemma.insert_many`: the trigger fires once per row, in order. */
  function InsertRelationRows(t: Tables, rows: seq<SubtitleLemma>): Tables {
    if rows == [] then t
    else InsertRelationRow(InsertRelationRows(t, rows[..|rows| - 1]), rows[|rows| - 1])
  }

  /** One relation row deleted, followed by the decrement trigger:
      `UPDATE lemma SET frequency = frequency - 1 WHERE id = OLD.lemma_id`. */
  function DeleteRelationRow(t: Tables, id: nat): Tables {
    if id in t.relations
    then t.(relations := t.relations - {id},
            lemmas := AdjustFrequency(t.lemmas, t.relations[id].lemmaId, -1))
    else t
  }

  /** `Lemma.bulk_update(..., fields=[Lemma.card_subtitle])`: each listed
      lemma that exists gets its new card subtitle; ids with no row are
      ignored by the UPDATE's WHERE clause. */
  function SetCards(t: Tables, cards: map<nat, nat>): Tables {
    t.(lemmas := map k | k in t.lemmas ::
                   if k in cards then t.lemmas[k].(cardSubtitle := Some(cards[k])) else t.lemmas[k])
  }

  // ============================================ what the statements guarantee

  /** A bulk update of no card changes nothing. */
  lemma {:induction false} SetCardsNone(t: Tables)
    ensures SetCards(t, map[]) == t
  {
    assert SetCards(t, map[]).lemmas == t.lemmas;
  }

  /** The triggers at work: after a multi-row relation insert, every lemma's
      frequency has risen by the number of new rows naming it, nothing else
      about the lemma has changed, and the rows are stored under consecutive
      fresh ids. */
  lemma {:induction false} InsertRelationRowsEffect(t: Tables, rows: seq<SubtitleLemma>)
    ensures var r := InsertRelationRows(t, rows);
      && r.relations == Appended(t.relations, t.nextRelationId, rows)
      && r.nextRelationId == t.nextRelationId + |rows|
      && r.lemmas.Keys == t.lemmas.Keys
      && (forall k :: k in t.lemmas ==>
            r.lemmas[k] == t.lemmas[k].(frequency := t.lemmas[k].frequency + CountIn(rows, k)))
      && r.subtitles == t.subtitles && r.nextSubtitleId == t.nextSubtitleId
      && r.nextLemmaId == t.nextLemmaId
    decreases |rows|
  {
    if rows != [] {
      var init := rows[..|rows| - 1];
      assert rows == init + [rows[|rows| - 1]];
      InsertRelationRowsEffect(t, init);
      AppendedSnoc(t.relations, t.nextRelationId, init, rows[|rows| - 1]);
    }
  }

  /** Each statement keeps the schema's constraints (ids below their counters,
      unique lemma texts), the lemma insert when its texts are distinct and
      not yet stored. */
  lemma {:induction false} InsertRelationRowWellFormed(t: Tables, row: SubtitleLemma)
    requires WellFormed(t)
    ensures WellFormed(InsertRelationRow(t, row))
  {
  }

  lemma {:induction false} InsertRelationRowsWellFormed(t: Tables, rows: seq<SubtitleLemma>)
    requires WellFormed(t)
    ensures WellFormed(InsertRelationRows(t, rows))
  {
    InsertRelationRowsEffect(t, rows);
    var r := InsertRelationRows(t, rows);
    forall a, b | a in r.lemmas && b in r.lemmas && r.lemmas[a].text == r.lemmas[b].text
      ensures a == b
    {
      assert r.lemmas[a].text == t.lemmas[a].text && r.lemmas[b].text == t.lemmas[b].text;
    }
  }

  /** The texts of a lemma insert collide with nothing. */
  predicate FreshTexts(lemmas: map<nat, Lemma>, texts: seq<string>) {
    DistinctTexts(texts) && NoneStored(lemmas, texts)
  }

  predicate DistinctTexts(texts: seq<string>) {
    forall i, j :: 0 <= i < j < |texts| ==> texts[i] != texts[j]
  }

  predicate NoneStored(lemmas: map<nat, Lemma>, texts: seq<string>) {
    forall k, i :: k in lemmas && 0 <= i < |texts| ==> lemmas[k].text != texts[i]
  }

  lemma {:induction false} InsertLemmaRowsWellFormed(t: Tables, texts: seq<string>)
    requires WellFormed(t) && FreshTexts(t.lemmas, texts)
    ensures WellFormed(InsertLemmaRows(t, texts))
  {
    var r := InsertLemmaRows(t, texts);
    forall a, b | a in r.lemmas && b in r.lemmas && r.lemmas[a].text == r.lemmas[b].text
      ensures a == b
    {
      var n := t.nextLemmaId;
      AppendedCases(t.lemmas, n, NewLemmas(texts), a);
      AppendedCases(t.lemmas, n, NewLemmas(texts), b);
    }
  }

  lemma {:induction false} InsertSubtitleRowsWellFormed(t: Tables, rows: seq<Subtitle>)
    requires WellFormed(t)
    ensures WellFormed(InsertSubtitleRows(t, rows))
  {
  }

  lemma {:induction false} SetCardsWellFormed(t: Tables, cards: map<nat, nat>)
    requires WellFormed(t)
    ensures WellFormed(SetCards(t, cards))
  {
    var r := SetCards(t, cards);
    forall a, b | a in r.lemmas && b in r.lemmas && r.lemmas[a].text == r.lemmas[b].text
      ensures a == b
    {
      assert r.lemmas[a].text == t.lemmas[a].text && r.lemmas[b].text == t.lemmas[b].text;
    }
  }

  /** The increment trigger keeps every frequency equal to the number of
      relation rows naming the lemma. */
  lemma {:induction false} InsertRelationRowKeepsFrequencies(t: Tables, row: SubtitleLemma)
    requires WellFormed(t) && FrequenciesExact(t)
    ensures FrequenciesExact(InsertRelationRow(t, row))
  {
    var r := InsertRelationRow(t, row);
    forall k | k in r.lemmas
      ensures r.lemmas[k].frequency == RefCount(r.relations, k)
    {
      RefCountInsert(t.relations, t.nextRelationId, row, k);
    }
  }

  /** The decrement trigger keeps every frequency equal to the number of
      relation rows naming the lemma. */
  lemma {:induction false} DeleteRelationRowKeepsFrequencies(t: Tables, id: nat)
    requires FrequenciesExact(t)
    ensures FrequenciesExact(DeleteRelationRow(t, id))
  {
    if id in t.relations {
      var r := DeleteRelationRow(t, id);
      forall k | k in r.lemmas
        ensures r.lemmas[k].frequency == RefCount(r.relations, k)
      {
        RefCountRemove(t.relations, id, k);
      }
    }
  }

  /** A relation insert or delete, as the triggers see them. */
  datatype RelationChange = InsertRow(row: SubtitleLemma) | DeleteRow(id: nat)

  function ApplyChanges(t: Tables, changes: seq<RelationChange>): Tables {
    if changes == [] then t
    else
      var t' := ApplyChanges(t, changes[..|changes| - 1]);
      match changes[|changes| - 1]
      case InsertRow(row) => InsertRelationRow(t', row)
      case DeleteRow(id) => DeleteRelationRow(t', id)
  }

  /** Starting from exact frequencies (freshly created tables have no rows,
      and a new lemma starts at frequency 0 with no relation naming it), any
      sequence of relation inserts and deletes leaves every lemma's frequency
      equal to the number of relation rows naming it. */
  lemma {:induction false} ChangesKeepFrequencies(t: Tables, changes: seq<RelationChange>)
    requires WellFormed(t) && FrequenciesExact(t)
    ensures WellFormed(ApplyChanges(t, changes)) && FrequenciesExact(ApplyChanges(t, changes))
    decreases |changes|
  {
    if changes != [] {
      var t' := ApplyChanges(t, changes[..|changes| - 1]);
      ChangesKeepFrequencies(t, changes[..|changes| - 1]);
      match changes[|changes| - 1]
      case InsertRow(row) =>
        InsertRelationRowWellFormed(t', row);
        InsertRelationRowKeepsFrequencies(t', row);
      case DeleteRow(id) =>
        DeleteRelationRowKeepsFrequencies(t', id);
    }
  }

  // ============================================ the index across the statements

  /** New lemma rows start at frequency 0 with no row naming them, so a
      consistent index stays consistent. */
  lemma {:induction false} InsertLemmaRowsIndexed(t: Tables, texts: seq<string>)
    requires WellFormed(t) && Indexed(t)
    ensures Indexed(InsertLemmaRows(t, texts))
  {
    var r := InsertLemmaRows(t, texts);
    forall k | k in r.lemmas
      ensures r.lemmas[k].frequency == RefCount(r.relations, k)
    {
      if k in t.lemmas {
        assert r.lemmas[k] == t.lemmas[k];
      } else {
        assert r.lemmas[k] == NewLemma(texts[k - t.nextLemmaId]);
        forall q | q in r.relations
          ensures r.relations[q].lemmaId != k
        {
          assert r.relations[q].lemmaId in t.lemmas;
        }
        assert RefIds(r.relations, k) == {};
      }
    }
    forall k | k in r.lemmas && r.lemmas[k].cardSubtitle.Some?
      ensures exists q :: q in r.relations && r.relations[q] == SubtitleLemma(r.lemmas[k].cardSubtitle.value, k)
    {
      AppendedCases(t.lemmas, t.nextLemmaId, NewLemmas(texts), k);
      assert k in t.lemmas && r.lemmas[k] == t.lemmas[k];
    }
  }

  /** New subtitle rows leave a consistent index consistent. */
  lemma {:induction false} InsertSubtitleRowsIndexed(t: Tables, rows: seq<Subtitle>)
    requires WellFormed(t) && Indexed(t)
    ensures Indexed(InsertSubtitleRows(t, rows))
  {
  }

  /** Every row of `rows` names an existing subtitle and lemma. */
  predicate RowsResolve(t: Tables, rows: seq<SubtitleLemma>) {
    forall i :: 0 <= i < |rows| ==> rows[i].subtitleId in t.subtitles && rows[i].lemmaId in t.lemmas
  }

  /** Relation rows that resolve leave a consistent index consistent, the
      triggers raising each lemma's frequency by its number of new rows. */
  lemma {:induction false} InsertRelationRowsIndexed(t: Tables, rows: seq<SubtitleLemma>)
    requires WellFormed(t) && Indexed(t) && RowsResolve(t, rows)
    ensures Indexed(InsertRelationRows(t, rows))
  {
    InsertRelationRowsEffect(t, rows);
    InsertRelationRowsFrequencies(t, rows);
    InsertRelationRowsResolve(t, rows);
    InsertRelationRowsCards(t, rows);
  }

  lemma {:induction false} InsertRelationRowsFrequencies(t: Tables, rows: seq<SubtitleLemma>)
    requires WellFormed(t) && FrequenciesExact(t)
    ensures FrequenciesExact(InsertRelationRows(t, rows))
  {
    var r := InsertRelationRows(t, rows);
    InsertRelationRowsEffect(t, rows);
    forall k | k in r.lemmas
      ensures r.lemmas[k].frequency == RefCount(r.relations, k)
    {
      RefCountAppended(t.relations, t.nextRelationId, rows, k);
    }
  }

  lemma {:induction false} InsertRelationRowsResolve(t: Tables, rows: seq<SubtitleLemma>)
    requires WellFormed(t) && RelationsResolve(t) && RowsResolve(t, rows)
    ensures RelationsResolve(InsertRelationRows(t, rows))
  {
    var r := InsertRelationRows(t, rows);
    assert r.relations == Appended(t.relations, t.nextRelationId, rows)
      && r.subtitles == t.subtitles && r.lemmas.Keys == t.lemmas.Keys by {
      InsertRelationRowsEffect(t, rows);
    }
    forall k | k in r.relations
      ensures r.relations[k].subtitleId in r.subtitles && r.relations[k].lemmaId in r.lemmas
    {
      AppendedCases(t.relations, t.nextRelationId, rows, k);
    }
  }

  lemma {:induction false} InsertRelationRowsCards(t: Tables, rows: seq<SubtitleLemma>)
    requires WellFormed(t) && CardsLinked(t)
    ensures CardsLinked(InsertRelationRows(t, rows))
  {
    var r := InsertRelationRows(t, rows);
    InsertRelationRowsEffect(t, rows);
    forall k | k in r.lemmas && r.lemmas[k].cardSubtitle.Some?
      ensures exists q :: q in r.relations && r.relations[q] == SubtitleLemma(r.lemmas[k].cardSubtitle.value, k)
    {
      var q :| q in t.relations && t.relations[q] == SubtitleLemma(t.lemmas[k].cardSubtitle.value, k);
      assert r.relations[q] == t.relations[q];
    }
  }

  /** Each new card is a subtitle related to its lemma. */
  predicate CardsRelated(t: Tables, cards: map<nat, nat>) {
    forall k :: k in cards && k in t.lemmas ==>
      exists q :: q in t.relations && t.relations[q] == SubtitleLemma(cards[k], k)
  }

  /** Cards drawn from new relation rows are related once the rows are in. */
  lemma {:induction false} InsertRelationRowsRelate(t: Tables, rows: seq<SubtitleLemma>, cards: map<nat, nat>)
    requires forall k :: k in cards ==> SubtitleLemma(cards[k], k) in rows
    ensures CardsRelated(InsertRelationRows(t, rows), cards)
  {
    var r := InsertRelationRows(t, rows);
    InsertRelationRowsEffect(t, rows);
    forall k | k in cards && k in r.lemmas
      ensures exists q :: q in r.relations && r.relations[q] == SubtitleLemma(cards[k], k)
    {
      var p :| 0 <= p < |rows| && rows[p] == SubtitleLemma(cards[k], k);
      AppendedPos(t.relations, t.nextRelationId, rows, p);
    }
  }

  /** Cards drawn from related subtitles leave a consistent index consistent. */
  lemma {:induction false} SetCardsIndexed(t: Tables, cards: map<nat, nat>)
    requires Indexed(t) && CardsRelated(t, cards)
    ensures Indexed(SetCards(t, cards))
  {
  }

  // =================================================================== the store

  /** The table scan behind `SELECT * FROM subtitle WHERE text IN (...)`:
      the ids below `next` in ascending order, keeping each row whose text
      is one of `texts`. */
  method ScanSubtitles(table: map<nat, Subtitle>, next: nat, texts: set<string>) returns (rows: seq<(nat, Subtitle)>)
    requires IdsBelow(table, next)
    ensures forall i :: 0 <= i < |rows| ==>
      rows[i].0 in table && table[rows[i].0] == rows[i].1 && rows[i].1.text in texts
    ensures forall id :: id in table && table[id].text in texts ==>
      exists i :: 0 <= i < |rows| && rows[i].0 == id
    ensures forall i, j :: 0 <= i < j < |rows| ==> rows[i].0 < rows[j].0
  {
    rows := [];
    ghost var pos: map<nat, nat> := map[];
    var id := 0;
    while id < next
      invariant 0 <= id <= next
      invariant forall i :: 0 <= i < |rows| ==>
        rows[i].0 < id && rows[i].0 in table && table[rows[i].0] == rows[i].1 && rows[i].1.text in texts
      invariant forall k :: k < id && k in table && table[k].text in texts ==>
        k in pos && pos[k] < |rows| && rows[pos[k]].0 == k
      invariant forall i, j :: 0 <= i < j < |rows| ==> rows[i].0 < rows[j].0
    {
      if id in table && table[id].text in texts {
        pos := pos[id := |rows|];
        rows := rows + [(id, table[id])];
      }
      id := id + 1;
    }
    forall k | k in table && table[k].text in texts
      ensures exists i :: 0 <= i < |rows| && rows[i].0 == k
    {
      assert rows[pos[k]].0 == k;
    }
  }

  /** Whether a lemma text passes the optional `WHERE text IN (...)`. */
  predicate Selects(texts: Option<set<string>>, text: string) {
    texts.None? || text in texts.value
  }

  /** The table scan behind `SELECT id, text FROM lemma`, with `WHERE text
      IN (...)` when `texts` is given: the ids below `next` in ascending
      order, keeping each matching row. */
  method ScanLemmas(table: map<nat, Lemma>, next: nat, texts: Option<set<string>>) returns (rows: seq<(nat, string)>)
    requires IdsBelow(table, next)
    ensures forall i :: 0 <= i < |rows| ==>
      rows[i].0 in table && table[rows[i].0].text == rows[i].1 && Selects(texts, rows[i].1)
    ensures forall id :: id in table && Selects(texts, table[id].text) ==>
      exists i :: 0 <= i < |rows| && rows[i].0 == id
    ensures forall i, j :: 0 <= i < j < |rows| ==> rows[i].0 < rows[j].0
  {
    rows := [];
    ghost var pos: map<nat, nat> := map[];
    var id := 0;
    while id < next
      invariant 0 <= id <= next
      invariant forall i :: 0 <= i < |rows| ==>
        rows[i].0 < id && rows[i].0 in table && table[rows[i].0].text == rows[i].1 && Selects(texts, rows[i].1)
      invariant forall k :: k < id && k in table && Selects(texts, table[k].text) ==>
        k in pos && pos[k] < |rows| && rows[pos[k]].0 == k
      invariant forall i, j :: 0 <= i < j < |rows| ==> rows[i].0 < rows[j].0
    {
      if id in table && Selects(texts, table[id].text) {
        pos := pos[id := |rows|];
        rows := rows + [(id, table[id].text)];
      }
      id := id + 1;
    }
    forall k | k in table && Selects(texts, table[k].text)
      ensures exists i :: 0 <= i < |rows| && rows[i].0 == k
    {
      assert rows[pos[k]].0 == k;
    }
  }

  /** The SQLite database file together with the ORM's connection to it. */
  class Database {
    /** Whether the connection is open; every statement opens it
        (the ORM connects on demand) and leaves it open. */
    var connected: bool
    var tablesExist: bool
    var triggersExist: bool
    var subtitles: map<nat, Subtitle>
    var lemmas: map<nat, Lemma>
    var relations: map<nat, SubtitleLemma>
    var nextSubtitleId: nat
    var nextLemmaId: nat
    var nextRelationId: nat
    /** The most host parameters one statement may bind. */
    const maxVariables: nat

    /** The rows of the three tables and their counters, as one value. */
    function Contents(): Tables
      reads this
    {
      Tables(subtitles, lemmas, relations, nextSubtitleId, nextLemmaId, nextRelationId)
    }

    /** The schema's constraints hold; missing tables hold nothing. */
    ghost predicate Sound()
      reads this
    {
      && WellFormed(Contents())
      && (triggersExist ==> tablesExist)
      && (!tablesExist ==> Contents() == EmptyTables())
    }

    /** Between calls the triggers exist exactly when the tables do. */
    ghost predicate Valid()
      reads this
    {
      Sound() && triggersExist == tablesExist
    }

    /** A database file nobody has set up yet. */
    constructor (maxVariables: nat)
      ensures Valid() && !connected && !tablesExist && this.maxVariables == maxVariables
    {
      this.maxVariables := maxVariables;
      connected, tablesExist, triggersExist := false, false, false;
      subtitles, lemmas, relations := map[], map[], map[];
      nextSubtitleId, nextLemmaId, nextRelationId := 1, 1, 1;
    }

    // ------------------------------------------------------- connection

    /** `db.connect()`: fails when the connection is already open. */
    method Connect() returns (r: Outcome<DbError>)
      modifies this`connected
      ensures r == (if old(connected) then Fail(ConnectionAlreadyOpen) else Pass)
      ensures connected
    {
      if connected {
        return Fail(ConnectionAlreadyOpen);
      }
      connected := true;
      r := Pass;
    }

    /** `db.close()`. */
    method Close()
      modifies this`connected
      ensures !connected
    {
      connected := false;
    }

    // ------------------------------------------------------------ schema

    /** `db.create_tables([...], safe=True)`: CREATE TABLE IF NOT EXISTS. */
    method CreateTables()
      requires Sound()
      modifies this
      ensures Sound() && connected && tablesExist && triggersExist == old(triggersExist)
      ensures Contents() == old(Contents())
    {
      connected := true;
      tablesExist := true;
    }

    /** `create_triggers()`: both CREATE TRIGGER IF NOT EXISTS statements;
        a trigger on a missing table is an error. */
    method CreateTriggers() returns (r: Outcome<DbError>)
      requires Sound()
      modifies this
      ensures Sound() && connected && tablesExist == old(tablesExist)
      ensures r == (if old(tablesExist) then Pass else Fail(NoSuchTable))
      ensures triggersExist == (old(triggersExist) || old(tablesExist))
      ensures Contents() == old(Contents())
    {
      connected := true;
      if !tablesExist {
        return Fail(NoSuchTable);
      }
      triggersExist := true;
      r := Pass;
    }

    /** `db.drop_tables([...], safe=True)`: DROP TABLE IF EXISTS; the
        triggers on `subtitlelemma` go with their table. */
    method DropTables()
      requires Sound()
      modifies this
      ensures Sound() && connected && !tablesExist && !triggersExist
      ensures Contents() == EmptyTables()
    {
      connected := true;
      tablesExist, triggersExist := false, false;
      subtitles, lemmas, relations := map[], map[], map[];
      nextSubtitleId, nextLemmaId, nextRelationId := 1, 1, 1;
    }

    /** `_setup_database_elements()`: tables, then triggers. */
    method SetupDatabaseElements() returns (r: Outcome<DbError>)
      requires Sound()
      modifies this
      ensures Valid() && connected && tablesExist && r == Pass
      ensures Contents() == old(Contents())
    {
      CreateTables();
      r := CreateTriggers();
    }

    /** `init_db()`: connect, set up tables and triggers, close.  An error
        (here: the connection was already open) is printed, not raised, and
        the connection is closed either way.  Rows already stored are kept,
        so a second call changes nothing. */
    method InitDb()
      requires Valid()
      modifies this
      ensures Valid() && !connected
      ensures old(connected) ==> tablesExist == old(tablesExist) && Contents() == old(Contents())
      ensures !old(connected) ==> tablesExist && Contents() == old(Contents())
    {
      var r := Connect();
      if r.Pass? {
        r := SetupDatabaseElements();
      }
      if connected {
        Close();
      }
    }

    /** `reset_db()`: connect, drop the three tables, set them up again,
        close.  Errors are printed, not raised; the connection ends closed. */
    method ResetDb()
      requires Valid()
      modifies this
      ensures Valid() && !connected
      ensures old(connected) ==> tablesExist == old(tablesExist) && Contents() == old(Contents())
      ensures !old(connected) ==> tablesExist && Contents() == EmptyTables()
    {
      var r := Connect();
      if r.Pass? {
        DropTables();
        r := SetupDatabaseElements();
      }
      if connected {
        Close();
      }
    }

    // -------------------------------------------------------- statements

    /** The guard every statement passes first. */
    method Guard(params: nat) returns (r: Outcome<DbError>)
      modifies this`connected
      ensures connected
      ensures r == Checked(tablesExist, maxVariables, params)
    {
      connected := true;
      if !tablesExist {
        return Fail(NoSuchTable);
      }
      if params > maxVariables {
        return Fail(TooManyVariables);
      }
      r := Pass;
    }

    /** `SELECT id, text FROM lemma`, optionally `WHERE text IN (...)`:
        every matching row exactly once. */
    method SelectLemmas(texts: Option<set<string>>) returns (r: Result<seq<(nat, string)>, DbError>)
      requires Valid()
      modifies this`connected
      ensures Valid() && connected
      ensures var c := Checked(tablesExist, maxVariables, if texts.Some? then |texts.value| else 0);
        (r.Err? <==> c.Fail?) && (r.Err? ==> r.error == c.error)
      ensures r.Ok? ==> forall i :: 0 <= i < |r.value| ==>
        var (id, text) := r.value[i];
        id in lemmas && lemmas[id].text == text && (texts.Some? ==> text in texts.value)
      ensures r.Ok? ==> forall id :: id in lemmas && (texts.Some? ==> lemmas[id].text in texts.value) ==>
        exists i :: 0 <= i < |r.value| && r.value[i].0 == id
      ensures r.Ok? ==> forall i, j :: 0 <= i < j < |r.value| ==> r.value[i].0 < r.value[j].0
    {
      var g := Guard(if texts.Some? then |texts.value| else 0);
      if g.Fail? {
        return Err(g.error);
      }
      var rows := ScanLemmas(lemmas, nextLemmaId, texts);
      r := Ok(rows);
    }

    /** `Lemma.insert_many([{'text': t} for t in texts])`.  The statement is
        rejected as a whole when a text is already stored or repeated. */
    method InsertLemmas(texts: seq<string>) returns (r: Outcome<DbError>)
      requires Valid()
      modifies this
      ensures Valid() && connected && tablesExist == old(tablesExist)
      ensures var c := Checked(tablesExist, maxVariables, LemmaInsertParams * |texts|);
        r == (if c.Fail? then c else if !FreshTexts(old(lemmas), texts) then Fail(UniqueViolation) else Pass)
      ensures r.Pass? ==> Contents() == InsertLemmaRows(old(Contents()), texts)
      ensures r.Fail? ==> Contents() == old(Contents())
    {
      var g := Guard(LemmaInsertParams * |texts|);
      if g.Fail? {
        return g;
      }
      if !DistinctTexts(texts) {
        var i, j :| 0 <= i < j < |texts| && texts[i] == texts[j];
        return Fail(UniqueViolation);
      }
      if !NoneStored(lemmas, texts) {
        var k, i :| k in lemmas && 0 <= i < |texts| && lemmas[k].text == texts[i];
        return Fail(UniqueViolation);
      }
      InsertLemmaRowsWellFormed(Contents(), texts);
      lemmas := Appended(lemmas, nextLemmaId, NewLemmas(texts));
      nextLemmaId := nextLemmaId + |texts|;
      r := Pass;
    }

    /** `SELECT * FROM subtitle WHERE text IN (...)`: the table has no index
        on `text`, so the scan returns the matching rows in id order. */
    method SelectSubtitles(texts: set<string>) returns (r: Result<seq<(nat, Subtitle)>, DbError>)
      requires Valid()
      modifies this`connected
      ensures Valid() && connected
      ensures var c := Checked(tablesExist, maxVariables, |texts|);
        (r.Err? <==> c.Fail?) && (r.Err? ==> r.error == c.error)
      ensures r.Ok? ==> forall i :: 0 <= i < |r.value| ==>
        r.value[i].0 in subtitles && subtitles[r.value[i].0] == r.value[i].1 && r.value[i].1.text in texts
      ensures r.Ok? ==> forall id :: id in subtitles && subtitles[id].text in texts ==>
        exists i :: 0 <= i < |r.value| && r.value[i].0 == id
      ensures r.Ok? ==> forall i, j :: 0 <= i < j < |r.value| ==> r.value[i].0 < r.value[j].0
    {
      var g := Guard(|texts|);
      if g.Fail? {
        return Err(g.error);
      }
      var rows := ScanSubtitles(subtitles, nextSubtitleId, texts);
      r := Ok(rows);
    }

    /** `Subtitle.insert_many(rows)`. */
    method InsertSubtitles(rows: seq<Subtitle>) returns (r: Outcome<DbError>)
      requires Valid()
      modifies this
      ensures Valid() && connected && tablesExist == old(tablesExist)
      ensures r == Checked(tablesExist, maxVariables, SubtitleInsertParams * |rows|)
      ensures r.Pass? ==> Contents() == InsertSubtitleRows(old(Contents()), rows)
      ensures r.Fail? ==> Contents() == old(Contents())
    {
      var g := Guard(SubtitleInsertParams * |rows|);
      if g.Fail? {
        return g;
      }
      subtitles := Appended(subtitles, nextSubtitleId, rows);
      nextSubtitleId := nextSubtitleId + |rows|;
      r := Pass;
    }

    /** `SubtitleLemma.insert_many(rows)`: each row is stored and then the
        increment trigger runs for it. */
    method InsertRelations(rows: seq<SubtitleLemma>) returns (r: Outcome<DbError>)
      requires Valid()
      modifies this
      ensures Valid() && connected && tablesExist == old(tablesExist)
      ensures r == Checked(tablesExist, maxVariables, RelationInsertParams * |rows|)
      ensures r.Pass? ==> Contents() == InsertRelationRows(old(Contents()), rows)
      ensures r.Fail? ==> Contents() == old(Contents())
    {
      var g := Guard(RelationInsertParams * |rows|);
      if g.Fail? {
        return g;
      }
      var i := 0;
      while i < |rows|
        invariant 0 <= i <= |rows|
        invariant Valid() && connected && tablesExist == old(tablesExist)
        invariant Contents() == InsertRelationRows(old(Contents()), rows[..i])
      {
        assert rows[..i + 1][..i] == rows[..i];
        InsertRelationRowWellFormed(Contents(), rows[i]);
        var row := rows[i];
        relations := relations[nextRelationId := row];
        nextRelationId := nextRelationId + 1;
        lemmas := AdjustFrequency(lemmas, row.lemmaId, 1);
        i := i + 1;
      }
      assert rows[..i] == rows;
      r := Pass;
    }

    /** `DELETE FROM subtitlelemma WHERE id = ?`, followed by the decrement
        trigger for the deleted row. */
    method DeleteRelation(id: nat) returns (r: Outcome<DbError>)
      requires Valid()
      modifies this
      ensures Valid() && connected && tablesExist == old(tablesExist)
      ensures r == Checked(tablesExist, maxVariables, 1)
      ensures r.Pass? ==> Contents() == DeleteRelationRow(old(Contents()), id)
      ensures r.Fail? ==> Contents() == old(Contents())
    {
      var g := Guard(1);
      if g.Fail? {
        return g;
      }
      if id in relations {
        var lemmaId := relations[id].lemmaId;
        relations := relations - {id};
        lemmas := AdjustFrequency(lemmas, lemmaId, -1);
      }
      r := Pass;
    }

    /** `Lemma.bulk_update(...)` of the card subtitle of the listed lemmas. */
    method BulkUpdateCards(cards: map<nat, nat>) returns (r: Outcome<DbError>)
      requires Valid()
      modifies this
      ensures Valid() && connected && tablesExist == old(tablesExist)
      ensures r == Checked(tablesExist, maxVariables, BulkUpdateParams * |cards|)
      ensures r.Pass? ==> Contents() == SetCards(old(Contents()), cards)
      ensures r.Fail? ==> Contents() == old(Contents())
    {
      var g := Guard(BulkUpdateParams * |cards|);
      if g.Fail? {
        return g;
      }
      SetCardsWellFormed(Contents(), cards);
      lemmas := SetCards(Contents(), cards).lemmas;
      r := Pass;
    }

    /** The rollback of `db.atomic()`: the rows as they were when the
        transaction began. */
    method Rollback(snapshot: Tables)
      requires Valid() && tablesExist && WellFormed(snapshot)
      modifies this
      ensures Valid() && tablesExist && connected == old(connected)
      ensures Contents() == snapshot
    {
      subtitles, lemmas, relations := snapshot.subtitles, snapshot.lemmas, snapshot.relations;
      nextSubtitleId, nextLemmaId, nextRelationId := snapshot.nextSubtitleId, snapshot.nextLemmaId, snapshot.nextRelationId;
    }
  }

  // ------------------------------------------------ repeated set-up

  /** `init_db` run twice on a closed database: the second run changes
      nothing the first left, and no stored row is lost. */
  method InitDbTwice(db: Database)
    requires db.Valid() && !db.connected
    modifies db
    ensures db.Valid() && !db.connected && db.tablesExist
    ensures db.Contents() == old(db.Contents())
  {
    db.InitDb();
    db.InitDb();
  }

  /** `reset_db` run twice on a closed database: both runs leave the same
      empty, set-up store. */
  method ResetDbTwice(db: Database)
    requires db.Valid() && !db.connected
    modifies db
    ensures db.Valid() && !db.connected && db.tablesExist
    ensures db.Contents() == EmptyTables()
  {
    db.ResetDb();
    db.ResetDb();
  }
}
