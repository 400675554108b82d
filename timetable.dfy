/** The timetable endpoint as the monitor sees it: the search form it posts
    and the results table it reads back. */
module Timetable {
  import opened Wrappers
  import GoStrings

  /** One results row: the text of each of its cells, in column order. */
  type Row = seq<string>

  /** What the monitor reads from one response: the whole text of the
      results table, and its rows. */
  datatype Document = Document(tableText: string, rows: seq<Row>)

  /** The fields of the timetable search form. */
  datatype Field =
    | Campus | TermYear | CoreCode | SubjCode | SchdType | CrseNumber
    | Crn | SessCode | BtnPressed | InstName | DispCommentsIn | OpenOnly

  /** The name under which each field is posted. */
  function Key(f: Field): string {
    match f
    case Campus => "CAMPUS"
    case TermYear => "TERMYEAR"
    case CoreCode => "CORE_CODE"
    case SubjCode => "subj_code"
    case SchdType => "SCHDTYPE"
    case CrseNumber => "CRSE_NUMBER"
    case Crn => "crn"
    case SessCode => "sess_code"
    case BtnPressed => "BTN_PRESSED"
    case InstName => "inst_name"
    case DispCommentsIn => "disp_comments_in"
    case OpenOnly => "open_only"
  }

  /** Distinct fields are posted under distinct names, so a form keyed by
      fields is a form keyed by names. */
  lemma KeyInjective(f: Field, g: Field)
    ensures Key(f) == Key(g) ==> f == g
  {
  }

  /** Form data: each field with its list of values (Go's `url.Values`,
      whose keys are the names `Key` gives). */
  type Form = map<Field, seq<string>>

  /** One POST of a form to a URL followed by parsing of the reply: the
      document, or the error of the request, of the status or of parsing. */
  type Fetcher = (string, Form) -> Result<Document>

  /** The eleven fields every search request carries. */
  const SearchKeys: set<Field> := {
    Campus, TermYear, CoreCode, SubjCode, SchdType, CrseNumber,
    Crn, SessCode, BtnPressed, InstName, DispCommentsIn
  }

  /** The eight search fields whose value never changes: everything except
      the campus, the term and the CRN. */
  const Wildcards: Form := map[
    CoreCode := ["AR%"],
    SubjCode := ["%"],
    SchdType := ["%"],
    CrseNumber := [""],
    SessCode := ["%"],
    BtnPressed := ["FIND class sections"],
    InstName := [""],
    DispCommentsIn := [""]
  ]

  /** The value posted for field `f` in the search for one CRN. */
  function FieldValue(campus: string, term: string, crn: string, f: Field): seq<string> {
    match f
    case Campus => [campus]
    case TermYear => [term]
    case Crn => [crn]
    case OpenOnly => ["on"]
    case _ => Wildcards[f]
  }

  /** The search form for one CRN: the eleven search fields, and the
      open-only filter as one more field when it is asked for. */
  function SearchForm(campus: string, term: string, crn: string, openOnly: bool): Form {
    map f: Field | f != OpenOnly || openOnly :: FieldValue(campus, term, crn, f)
  }

  /** The text of cell `k` of a row (`td:nth-child(k+1)`); empty when the row
      has no such cell. */
  function Cell(row: Row, k: nat): string {
    if k < |row| then row[k] else ""
  }

  /** A row belongs to `crn` when its first cell contains it. */
  predicate RowMatches(row: Row, crn: string) {
    GoStrings.Contains(Cell(row, 0), crn)
  }

  /** The position of the last row that belongs to `crn`, if any. */
  function LastMatch(rows: seq<Row>, crn: string): (r: Option<nat>)
    ensures r.Some? ==> r.value < |rows| && RowMatches(rows[r.value], crn)
    ensures r.Some? ==> forall j :: r.value < j < |rows| ==> !RowMatches(rows[j], crn)
    ensures r.None? <==> forall j :: 0 <= j < |rows| ==> !RowMatches(rows[j], crn)
  {
    if rows == [] then None
    else if RowMatches(rows[|rows| - 1], crn) then Some(|rows| - 1)
    else LastMatch(rows[..|rows| - 1], crn)
  }

  /** The title taken from the last row that belongs to `crn`, trimmed; empty
      when no row belongs to it. */
  function LastTitle(rows: seq<Row>, crn: string): string {
    match LastMatch(rows, crn)
    case None => ""
    case Some(k) => GoStrings.TrimSpace(Cell(rows[k], 2))
  }

  function NotFound(crn: string): string {
    "course not found for CRN: " + crn
  }

  /** The course name the results give for `crn`, or the not-found error. */
  function TitleOf(rows: seq<Row>, crn: string): (r: Result<string>)
    ensures r.Ok? ==> exists k :: NamedBy(rows, crn, k, r.value)
    ensures forall k, name :: NamedBy(rows, crn, k, name) ==> r == Ok(name)
    ensures r.Err? ==> r == Err(NotFound(crn))
  {
    NamedByIsLastMatch(rows, crn);
    var t := LastTitle(rows, crn);
    if t == "" then Err(NotFound(crn))
    else
      assert NamedBy(rows, crn, LastMatch(rows, crn).value, t);
      Ok(t)
  }

  /** Row `k` is the last row belonging to `crn` and its third cell,
      trimmed, is the non-empty `name`. */
  ghost predicate NamedBy(rows: seq<Row>, crn: string, k: int, name: string) {
    && 0 <= k < |rows|
    && RowMatches(rows[k], crn)
    && (forall j :: k < j < |rows| ==> !RowMatches(rows[j], crn))
    && name == GoStrings.TrimSpace(Cell(rows[k], 2))
    && name != ""
  }

  /** The row a name is taken from is the last matching row. */
  lemma NamedByIsLastMatch(rows: seq<Row>, crn: string)
    ensures forall k, name :: NamedBy(rows, crn, k, name) ==> LastMatch(rows, crn) == Some(k)
  {
    forall k, name | NamedBy(rows, crn, k, name)
      ensures LastMatch(rows, crn) == Some(k)
    {
      var m := LastMatch(rows, crn);
      assert m.Some?;
      assert !(k < m.value) && !(m.value < k);
    }
  }

  /** What a name lookup yields from a fetch: fetch errors pass through
      unchanged, otherwise the title found in the rows. */
  function NameLookup(fetched: Result<Document>, crn: string): Result<string> {
    match fetched
    case Err(e) => Err(e)
    case Ok(doc) => TitleOf(doc.rows, crn)
  }

  /** A later matching row overrides an earlier one: when the last matching
      row's title is blank the lookup fails, whatever an earlier match says. */
  lemma BlankLastTitleHidesEarlier(rows: seq<Row>, crn: string, j: nat, k: nat)
    requires j < k < |rows|
    requires RowMatches(rows[j], crn) && RowMatches(rows[k], crn)
    requires forall i :: k < i < |rows| ==> !RowMatches(rows[i], crn)
    requires GoStrings.TrimSpace(Cell(rows[k], 2)) == ""
    ensures TitleOf(rows, crn) == Err(NotFound(crn))
  {
    var m := LastMatch(rows, crn);
    assert m.Some?;
    assert !(k < m.value) && !(m.value < k);
    assert m == Some(k);
    assert LastTitle(rows, crn) == GoStrings.TrimSpace(Cell(rows[k], 2));
  }

}
