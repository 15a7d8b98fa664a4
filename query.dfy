/**
 * The query program: it writes a `QUERY` formula filtering column C on a fixed value into
 * `Sheet1!E1` (USER_ENTERED, so the sheet evaluates it), reads back `Sheet1!E:F`, and reports
 * each result row as the pair of its first two cells, or "No matching rows found".
 */
module QueryProgram {
  import opened Wrappers
  import opened Json
  import opened Text
  import opened Transport
  import opened Launch

  const FilterValue := "Test6"
  const FormulaCell := "Sheet1!E1"
  const ResultRange := "Sheet1!E:F"

  /** The formula up to its filter clause. */
  const FormulaHead := "=QUERY(A:C, \"SELECT A,B "
  /** The filter clause up to the value. */
  const FilterOpen := "WHERE C='"
  /** What follows the value: the closing quote, the end of the query string and of the call. */
  const FormulaTail := "'\")"

  /** The formula for filter value `v`, spliced in as it is: a quote inside `v` is not escaped. */
  function Formula(v: string): string {
    FormulaHead + FilterOpen + v + FormulaTail
  }

  /** The filter clause `WHERE C='v'` sits at a fixed position, right after the selection. */
  lemma FilterClause(v: string)
    ensures |Formula(v)| == |v| + 36
    ensures Formula(v)[..|FormulaHead|] == FormulaHead
    ensures Formula(v)[|FormulaHead|..|FormulaHead| + |FilterOpen| + |v| + 1] == FilterOpen + v + "'"
    ensures Formula(v)[|FormulaHead| + |FilterOpen| + |v|..] == FormulaTail
  {
  }

  /** For the program's filter value the formula is the literal one, and it contains `WHERE C='Test6'`. */
  lemma FixedFormula()
    ensures Formula(FilterValue) == "=QUERY(A:C, \"SELECT A,B WHERE C='Test6'\")"
    ensures Formula(FilterValue)[24..39] == "WHERE C='Test6'"
  {
  }

  /** Different filter values give different formulas. */
  lemma FormulaInjective(a: string, b: string)
    ensures Formula(a) == Formula(b) <==> a == b
  {
    if Formula(a) == Formula(b) {
      FilterClause(a);
      FilterClause(b);
      var h := |FormulaHead| + |FilterOpen|;
      assert a == Formula(a)[h..h + |a|];
      assert b == Formula(b)[h..h + |b|];
    }
  }

  /** The value is inserted verbatim: the formula has exactly the value's single quotes plus the two
      that delimit it, so a value containing `'` ends the string literal early. */
  lemma FormulaQuotes(v: string)
    ensures Occurrences(Formula(v), '\'') == Occurrences(v, '\'') + 2
  {
    var q := '\'';
    var open := FormulaHead + FilterOpen;
    assert Occurrences(open, q) == 1 by { FixedPartQuotes(); }
    OccurrencesConcat(open, v, q);
    OccurrencesConcat(open + v, FormulaTail, q);
    assert Occurrences(FormulaTail, q) == 1 by { FixedPartQuotes(); }
  }

  /** The fixed text before the value holds one quote, the one opening the value; the text after
      it holds one, the one closing it. */
  lemma FixedPartQuotes()
    ensures Occurrences(FormulaHead + FilterOpen, '\'') == 1
    ensures Occurrences(FormulaTail, '\'') == 1
  {
    var q := '\'';
    assert FormulaHead + FilterOpen == (FormulaHead + "WHERE C=") + [q];
    OccurrencesAbsent(FormulaHead + "WHERE C=", q);
    OccurrencesConcat(FormulaHead + "WHERE C=", [q], q);
    assert FormulaTail == [q] + "\")";
    OccurrencesAbsent("\")", q);
    OccurrencesConcat([q], "\")", q);
  }

  /** The formula write: a 1x1 USER_ENTERED PUT into `Sheet1!E1`. */
  function FormulaPut(s: Session): Request {
    ValuesPut(s.spreadsheetId, FormulaCell, UserEntered, s.bearer, [[Formula(FilterValue)]])
  }

  /** The read of the columns the formula spills into. */
  function ResultRead(s: Session): Request {
    ValuesGet(s.spreadsheetId, ResultRange, s.bearer)
  }

  /** A result row, as printed: its first two cells, `""` where missing or not a string. */
  function ProjectRow(row: Json): (string, string) {
    (CellText(row, 0), CellText(row, 1))
  }

  /** Every result row projected, one pair per row, in response order. */
  function ProjectRows(rows: seq<Json>): (pairs: seq<(string, string)>)
    ensures |pairs| == |rows|
    ensures forall i :: 0 <= i < |rows| ==> pairs[i] == ProjectRow(rows[i])
  {
    seq(|rows|, i requires 0 <= i < |rows| => ProjectRow(rows[i]))
  }

  /** Component `k` (0 or 1) of a projected pair. */
  function PairCell(p: (string, string), k: nat): string {
    if k == 0 then p.0 else p.1
  }

  /** Whatever the reply holds, result cell `k` of row `i` is that cell's string when it is one,
      and `""` when the row is not an array, is too short, or holds a non-string there. */
  lemma ProjectedCell(rows: seq<Json>, i: nat, k: nat)
    requires i < |rows| && k < 2
    ensures var row := rows[i]; var c := PairCell(ProjectRows(rows)[i], k);
      && (row.Arr? && k < |row.items| && row.items[k].Str? ==> c == row.items[k].s)
      && (!row.Arr? || k >= |row.items| || !row.items[k].Str? ==> c == "")
  {
  }

  /** Cell `k` of a row of strings, `""` past its end. */
  function CellOr(row: seq<string>, k: nat): string {
    if k < |row| then row[k] else ""
  }

  /** A response carrying a matrix of strings projects to the first two cells of each of its rows,
      in order; a two-column result comes back exactly. */
  lemma ProjectValuesBody(matrix: seq<seq<string>>)
    ensures var pairs := ProjectRows(AsArray(Member(ValuesBody(matrix), "values")).value);
      && |pairs| == |matrix|
      && (forall i :: 0 <= i < |matrix| ==> pairs[i] == (CellOr(matrix[i], 0), CellOr(matrix[i], 1)))
      && ((forall i :: 0 <= i < |matrix| ==> |matrix[i]| == 2) ==>
            forall i :: 0 <= i < |matrix| ==> [pairs[i].0, pairs[i].1] == matrix[i])
  {
  }

  /** How the query program ends when it gets through. */
  datatype QueryResult = NoMatchingRows | Results(pairs: seq<(string, string)>)

  /** The whole run of the query program, from a fresh client. */
  function QueryRun(server: Server, env: Env): Run<QueryResult> {
    var pre := Prelude(server, [], env);
    if !pre.exit.Completed? then Run(pre.sent, Abandon(pre.exit))
    else
      var s := pre.exit.result;
      var log := pre.sent + [FormulaPut(s)];
      if server(pre.sent, FormulaPut(s)).SendFailed? then Run(log, Failed(TransportFailed))
      else
        match JsonBody(server(log, ResultRead(s)))
        case Err(f) => Run(log + [ResultRead(s)], Failed(f))
        case Ok(body) =>
          match AsArray(Member(body, "values"))
          case None => Run(log + [ResultRead(s)], Completed(NoMatchingRows))
          case Some(rows) => Run(log + [ResultRead(s)], Completed(Results(ProjectRows(rows))))
  }

  /** After authentication the program writes the formula and then reads once: the Sheets requests
      are the PUT alone (when it cannot be sent) or the PUT followed by the single GET. */
  lemma QueryWritesThenReads(server: Server, env: Env)
    ensures var pre := Prelude(server, [], env); var run := QueryRun(server, env);
      && pre.sent <= run.sent
      && (!pre.exit.Completed? ==> run.sent == pre.sent && run.exit == Abandon(pre.exit))
      && (pre.exit.Completed? ==>
            var put := FormulaPut(pre.exit.result);
            var get := ResultRead(pre.exit.result);
            && (run.sent[|pre.sent|..] == [put] || run.sent[|pre.sent|..] == [put, get])
            && (run.sent[|pre.sent|..] == [put, get] <==> Delivered(server, pre.sent, put)))
  {
  }

  /** When the read returns rows, the result is their projection, in order; when it has no
      `values` array, the program reports that no rows matched. */
  lemma QueryResultFromReply(server: Server, env: Env, body: Json)
    requires var pre := Prelude(server, [], env);
      && pre.exit.Completed?
      && Delivered(server, pre.sent, FormulaPut(pre.exit.result))
      && server(pre.sent + [FormulaPut(pre.exit.result)], ResultRead(pre.exit.result)) == Replied(Some(body))
    ensures var v := Member(body, "values");
      QueryRun(server, env).exit == if v.Arr? then Completed(Results(ProjectRows(v.items)))
                                    else Completed(NoMatchingRows)
  {
  }

  /** The program's `main`, run on a fresh client: authenticate, write the formula, read the result. */
  method Execute(c: Client, env: Env) returns (e: Exit<QueryResult>)
    requires c.log == []
    modifies c
    ensures c.log == QueryRun(c.server, env).sent && e == QueryRun(c.server, env).exit
  {
    var pre := Authenticate(c, env);
    if !pre.Completed? {
      return Abandon(pre);
    }
    var s := pre.result;
    ghost var sent := c.log;
    assert sent == Prelude(c.server, [], env).sent;
    var written := c.Send(FormulaPut(s));
    if written.SendFailed? {
      return Failed(TransportFailed);
    }
    ghost var log := c.log;
    var reply := c.Send(ResultRead(s));
    var body := JsonBody(reply);
    assert body == JsonBody(c.server(log, ResultRead(s)));
    if body.Err? {
      return Failed(body.error);
    }
    var rows := AsArray(Member(body.value, "values"));
    if rows.None? {
      return Completed(NoMatchingRows);
    }
    return Completed(Results(ProjectRows(rows.value)));
  }
}
