/** Updates and deletes by id, with or without a lock: the emitted statement, run on a
    table, changes exactly the row the DAO means. */
module LockedWrites {
  import opened Types
  import opened SqlLogic
  import opened SqlPrecedence
  import opened SqlLexing
  import opened FilterKeys
  import opened FilterClause
  import opened WhereClause
  import opened WriteStatements
  import opened WriteLayouts
  import opened WriteTexts
  import opened StatementReading
  import opened WriteReading
  import opened WriteReadBack
  import opened WriteDao
  import opened WriteEffects

  /** A table as conditions see it: for each id the environment of its row. The lock's
      comparison, which conditions leave to the database, compares the row's stamp with
      the time the parameter stands for, cut to the millisecond. */
  ghost predicate Shows(t: Table, envOf: Value -> Env, timeOf: Value -> Time) {
    forall id :: id in t ==>
      && !id.Null? && envOf(id).row("id") == id
      && forall v :: envOf(id).other(
             [W("updated_at"), S('='), W("date_trunc"), S('('), Q("'milliseconds"), S(','), V(v), S(':'), S(':'),
              W("timestamptz"), S(')')]) == Holds(t[id].updatedAt == Ms(timeOf(v)))
  }

  /** The rows in which a condition is true, given as tokens. */
  predicate Selects(env: Env, where: seq<Tok>, ps: seq<Value>) { EvalOr(env, Resolve(where, ps)) == True }

  function UpdateRun(s: Statement, ps: seq<Value>, envOf: Value -> Env, t: Table, now: Time): Table
    requires s.UpdateSet?
  {
    map id | id in t ::
      if Selects(envOf(id), s.where, ps) then Assign(s.sets, [], [], ps, t[id], now) else t[id]
  }

  function DeleteRun(where: seq<Tok>, ps: seq<Value>, envOf: Value -> Env, t: Table): Table {
    map id | id in t && !Selects(envOf(id), where, ps) :: t[id]
  }

  /** The time an expected version stands for. */
  function Expected(timeOf: Value -> Time, lock: Option<Value>): Option<Time> {
    if lock.None? then None else Some(timeOf(lock.value))
  }

  // ---------------------------------------------------------------------- conditions

  /** `{ id }` as a filter: equality, or membership for a list of ids. */
  function ById(cat: Catalog, id: Value): Filter {
    Filter("id", if id.List? then In else Eq, id, CastFor(cat.typeOf("id"), if id.List? then 1 else 0))
  }

  lemma ByIdParses(cat: Catalog, id: Value)
    ensures AllParse(cat, [("id", id)]) && WriteFilters(cat, [("id", id)]) == [ById(cat, id)]
    ensures FiltersOk([ById(cat, id)])
  {
    hide CastFor, WriteFilter, FilterOk;
    IdIsSeparable();
    WriteFilterReads(cat, "id", id);
    IdFilterOk(cat, id);
  }

  lemma IdFilterOk(cat: Catalog, id: Value)
    ensures FilterOk(ById(cat, id))
  {
    hide CastFor, CastOk, CastText;
    assert |Upper("id")| == 2 && Upper("id")[0] == 'I' && Upper("id")[1] == 'D';
    CastForOk(cat.typeOf("id"), 0);
    CastForOk(cat.typeOf("id"), 1);
  }

  lemma IdIsSeparable()
    ensures Separable("id")
  {
    assert "id"[1..] == "d" && "id"[..2] == "id" && "id"[0] != DELIMITER[0];
    assert FirstDelimiter("d") == 1;
  }

  /** The clause for `{ id }` with its lock, read as tokens with the statement's
      parameters, is true in exactly the rows that have the id and the version. */
  lemma ByIdSelects(cat: Catalog, id: Value, lock: Option<Value>, before: seq<Value>, t: Table, envOf: Value -> Env,
                    timeOf: Value -> Time, rid: Value)
    requires Shows(t, envOf, timeOf) && rid in t && !id.Null?
    ensures var fs := [ById(cat, id)];
            var where := Lex(WhereOf(fs, |before|) + LockClause(lock, |before| + |FilterParams(fs)| + 1));
            Selects(envOf(rid), where, before + (FilterParams(fs) + LockParams(lock))) <==>
              (if id.List? then rid in id.elems else rid == id)
              && (lock.Some? ==> t[rid].updatedAt == Ms(timeOf(lock.value)))
  {
    hide Lex, WhereOf, LockClause, LockItems, FilterParams, FiltersOk, EvalOr, Resolve, ById;
    ByIdParses(cat, id);
    var env, fs := envOf(rid), [ById(cat, id)];
    UpdateWhereMeans(env, fs, before, lock);
    ByIdTruth(cat, id, env);
    if lock.Some? { LockItemsRead(lock.value); }
    OneAndLock(FilterTruths(env, fs)[0], LockTruths(env, lock));
    assert FilterTruths(env, fs) == [FilterTruths(env, fs)[0]];
  }

  lemma ByIdTruth(cat: Catalog, id: Value, env: Env)
    requires !env.row("id").Null? && !id.Null?
    ensures FilterTruths(env, [ById(cat, id)])
            == [if id.List? then Membership(env.row("id"), id) else Holds(env.row("id") == id)]
  {
    hide CastFor;
    var f := ById(cat, id);
    assert [f][1..] == [];
    assert FilterTruths(env, [f]) == [Denotes(env, env.row("id"), f.op, f.value)] + FilterTruths(env, []);
  }

  lemma OneAndLock(truth: Truth, lock: seq<Truth>)
    requires |lock| <= 1
    ensures Conj([truth] + lock) == True <==> truth == True && (lock != [] ==> lock[0] == True)
  {
    assert ([truth] + lock)[1..] == lock;
    if lock != [] { assert lock[1..] == []; }
  }

  // ---------------------------------------------------------------------- statements

  /** The text of an update, and what is pushed for it. */
  function UpdateWith(table: string, cat: Catalog, data: Record, fs: seq<Filter>, lock: Option<Value>): string {
    UpdateText(table, SetList(CastsOf(cat), KeysOf(data)), WhereOf(fs, |data|),
               LockClause(lock, |data| + |FilterParams(fs)| + 1), ReturningText([]))
  }

  function ValuesWith(cat: Catalog, data: Record, fs: seq<Filter>, lock: Option<Value>): seq<Value> {
    Cells(CellsOf(cat), KeysOf(data), data) + (FilterParams(fs) + LockParams(lock))
  }

  /** One row of the table under that statement. */
  lemma UpdateOfRow(table: string, cat: Catalog, data: Record, id: Value, lock: Option<Value>, t: Table,
                    envOf: Value -> Env, timeOf: Value -> Time, now: Time, rid: Value)
    requires IsName(table) && AllNames(KeysOf(data)) && Shows(t, envOf, timeOf) && !id.Null? && !id.List? && rid in t
    ensures var s := ReadUpdate(Lex(UpdateWith(table, cat, data, [ById(cat, id)], lock)));
            var ps := ValuesWith(cat, data, [ById(cat, id)], lock);
            && s.UpdateSet?
            && Assign(s.sets, [], [], ps, t[rid], now)
               == WriteDao.Written(CellsOf(cat), t[rid], KeySet(data), data, now)
            && (Selects(envOf(rid), s.where, ps) <==>
                rid == id && (lock.Some? ==> t[rid].updatedAt == Ms(timeOf(lock.value))))
  {
    hide Lex, CastsOf, ReadUpdate, UpdateText, SetList, IsName, KeySet, Assign, Selects, WhereOf, LockClause,
         FilterParams, LockParams, Shows, WriteDao.Written, ById, CellsOf, BoundSources, Ms;
    var fs := [ById(cat, id)];
    var more := FilterParams(fs) + LockParams(lock);
    var w, l := WhereOf(fs, |data|), LockClause(lock, |data| + |FilterParams(fs)| + 1);
    assert w + (l + "") == w + l;
    UpdateRuns(table, cat, data, more, w, l, "", t[rid], now);
    ByIdSelects(cat, id, lock, Cells(CellsOf(cat), KeysOf(data), data), t, envOf, timeOf, rid);
  }

  /** The emitted update of one row by id, read back from its text and run on a table,
      leaves the table the model of update describes. */
  lemma UpdateByIdRuns(table: string, cat: Catalog, data: Record, id: Value, lock: Option<Value>, t: Table,
                       envOf: Value -> Env, timeOf: Value -> Time, now: Time)
    requires IsName(table) && AllNames(KeysOf(data)) && Shows(t, envOf, timeOf) && !id.Null? && !id.List?
    ensures var s := ReadUpdate(Lex(UpdateWith(table, cat, data, [ById(cat, id)], lock)));
            s.UpdateSet?
            && UpdateRun(s, ValuesWith(cat, data, [ById(cat, id)], lock), envOf, t, now)
               == AfterUpdate(CellsOf(cat), t, id, data, Expected(timeOf, lock), now)
  {
    hide Lex, ReadUpdate, UpdateWith, ValuesWith, ById, IsName, KeySet, Assign, Selects, Shows, WriteDao.Written,
         CellsOf, UpdateRun, AfterUpdate, Ms;
    var s := ReadUpdate(Lex(UpdateWith(table, cat, data, [ById(cat, id)], lock)));
    ReadsSets(Lex(UpdateWith(table, cat, data, [ById(cat, id)], lock)));
    var ps := ValuesWith(cat, data, [ById(cat, id)], lock);
    forall rid | rid in t
      ensures Assign(s.sets, [], [], ps, t[rid], now)
              == WriteDao.Written(CellsOf(cat), t[rid], KeySet(data), data, now)
      ensures Selects(envOf(rid), s.where, ps) <==>
                rid == id && (lock.Some? ==> t[rid].updatedAt == Ms(timeOf(lock.value)))
    {
      UpdateOfRow(table, cat, data, id, lock, t, envOf, timeOf, now, rid);
    }
    OneRowUpdated(s, CellsOf(cat), data, ps, id, Expected(timeOf, lock), t, envOf, now);
  }

  lemma ReadsSets(toks: seq<Tok>)
    ensures ReadUpdate(toks).UpdateSet?
  {
  }

  lemma UpdateWithIs(table: string, cat: Catalog, data: Record, fs: seq<Filter>, lock: Option<Value>)
    ensures UpdateWith(table, cat, data, fs, lock)
            == UpdateText(table, SetList(CastsOf(cat), KeysOf(data)), WhereOf(fs, |data|),
                          LockClause(lock, |data| + |FilterParams(fs)| + 1), ReturningText([]))
    ensures ValuesWith(cat, data, fs, lock)
            == Cells(CellsOf(cat), KeysOf(data), data) + (FilterParams(fs) + LockParams(lock))
  {
    hide UpdateText, SetList, CastsOf, CellsOf, WhereOf, LockClause, FilterParams, ReturningText, Cells, LockParams;
  }

  /** The DAO's update, as the adapter sends it: the filter is `{ id }`. */
  method BuildUpdateById(table: string, cat: Catalog, data: Record, id: Value, lock: Option<Value>)
    returns (r: Result<string>, values: seq<Value>)
    ensures r == Ok(UpdateWith(table, cat, data, [ById(cat, id)], lock))
    ensures values == ValuesWith(cat, data, [ById(cat, id)], lock)
  {
    hide *;
    ByIdParses(cat, id);
    assert [("id", id)] != [];
    UpdateWithIs(table, cat, data, [ById(cat, id)], lock);
    r, values := BuildUpdate(table, data, [("id", id)], lock, [], cat);
  }

  lemma OneRowUpdated(s: Statement, cell: CellOf, data: Record, ps: seq<Value>, id: Value, lock: Option<Time>, t: Table,
                      envOf: Value -> Env, now: Time)
    requires s.UpdateSet?
    requires forall rid :: rid in t ==>
      Assign(s.sets, [], [], ps, t[rid], now) == WriteDao.Written(cell, t[rid], KeySet(data), data, now)
    requires forall rid :: rid in t ==>
      (Selects(envOf(rid), s.where, ps) <==> rid == id && (lock.Some? ==> t[rid].updatedAt == Ms(lock.value)))
    ensures UpdateRun(s, ps, envOf, t, now) == AfterUpdate(cell, t, id, data, lock, now)
  {
    hide Assign, WriteDao.Written, Selects, KeySet, Ms;
  }

  // -------------------------------------------------------------------------- delete

  lemma DeleteHeadReads(table: string)
    requires IsWord(table)
    ensures Reads("DELETE FROM " + table, [Word("DELETE"), Word("FROM"), Word(table)])
  {
    hide SqlLexing.Written, Tokens, WellSpaced, IsWord, Reads;
    FixedWords();
    DeleteWord();
    LastName(table);
    var a := Name("FROM", Space(Name(table, End)));
    SpacedName("FROM", Name(table, End));
    SpacedName("DELETE", a);
    ReadsTemplate(Name("DELETE", Space(a)));
    assert "DELETE" + (" " + ("FROM" + (" " + table))) == "DELETE FROM " + table;
    assert [Word("DELETE")] + ([Word("FROM")] + [Word(table)]) == [Word("DELETE"), Word("FROM"), Word(table)];
  }

  lemma DeleteWord()
    ensures IsWord("DELETE") && Upper("DELETE") == "DELETE"
  {
  }

  /** The condition of DELETE FROM table WHERE ... */
  lemma DeleteReads(table: string, w: string, lock: string)
    requires IsName(table)
    ensures After(Lex(DeleteText(table, w, lock)), Keyword("WHERE")) == Lex(w + lock)
  {
    hide Lex, QuotesClosed, IsName, Stops, After, Whole;
    var head := [Word("DELETE"), Word("FROM"), Word(table)];
    TableIsWord(table);
    DeleteHeadReads(table);
    FixedWords();
    KeywordReads("WHERE", w + lock);
    var tail := " " + "WHERE" + " " + (w + lock);
    LexThen("DELETE FROM " + table, tail);
    assert "DELETE FROM " + table + " WHERE " + (w + lock) == ("DELETE FROM " + table) + tail;
    DeleteHeadCuts(table);
    KeywordsAreUpper();
    KeywordCuts(head, "WHERE", Lex(w + lock));
  }

  lemma DeleteHeadCuts(table: string)
    requires IsName(table)
    ensures Whole([Word("DELETE"), Word("FROM"), Word(table)], Keyword("WHERE"))
  {
    DeleteWord();
    KeywordsAreUpper();
    FlatIsWhole([Word("DELETE"), Word("FROM"), Word(table)], Keyword("WHERE"));
  }

  /** The emitted delete by id, or by a list of ids, removes exactly the rows that have
      one of the ids and the expected version. */
  lemma DeleteByIdRuns(table: string, cat: Catalog, id: Value, lock: Option<Value>, t: Table, envOf: Value -> Env,
                       timeOf: Value -> Time)
    requires IsName(table) && Shows(t, envOf, timeOf) && !id.Null?
    ensures AllParse(cat, [("id", id)])
    ensures var fs := WriteFilters(cat, [("id", id)]);
            var text := DeleteText(table, WhereOf(fs, 0), LockClause(lock, |FilterParams(fs)| + 1));
            var left := DeleteRun(After(Lex(text), Keyword("WHERE")), FilterParams(fs) + LockParams(lock), envOf, t);
            && (!id.List? ==> left == AfterDelete(t, id, Expected(timeOf, lock)))
            && (id.List? && lock.None? ==> left == t - (set e | e in id.elems))
  {
    hide Lex, IsName, Selects, WhereOf, LockClause, FilterParams, LockParams, WriteFilters, Shows, AllParse, ById,
         DeleteText, After;
    ByIdParses(cat, id);
    var fs := [ById(cat, id)];
    var w, l := WhereOf(fs, 0), LockClause(lock, |FilterParams(fs)| + 1);
    DeleteReads(table, w, l);
    forall rid | rid in t
      ensures Selects(envOf(rid), Lex(w + l), FilterParams(fs) + LockParams(lock)) <==>
                (if id.List? then rid in id.elems else rid == id)
                && (lock.Some? ==> t[rid].updatedAt == Ms(timeOf(lock.value)))
    {
      ByIdSelects(cat, id, lock, [], t, envOf, timeOf, rid);
      assert [] + (FilterParams(fs) + LockParams(lock)) == FilterParams(fs) + LockParams(lock);
    }
  }
}
