/** Matching a workspace reference against the caller's listing. */
module WorkspaceSelect {
  import opened Wrappers
  import Text

  datatype Row = Row(id: string, name: string)

  function Ids(rows: seq<Row>): set<string> {
    set r | r in rows :: r.id
  }

  /** The rows whose name folds to `folded`, in listing order. */
  function ByName(rows: seq<Row>, folded: string): (r: seq<Row>)
    ensures forall x :: x in r <==> x in rows && Text.Lower(x.name) == folded
  {
    if rows == [] then []
    else
      var rest := ByName(rows[1..], folded);
      if Text.Lower(rows[0].name) == folded then [rows[0]] + rest else rest
  }

  /** `resolve_workspace`: by id first, then by a name only one row has. */
  function Resolve(rows: seq<Row>, ref: string): (r: Option<string>)
    ensures r.Some? ==> r.value in Ids(rows)
  {
    var wanted := Text.Strip(ref);
    if wanted in Ids(rows) then Some(wanted)
    else
      var named := ByName(rows, Text.Lower(wanted));
      if |named| == 1 then assert named[0] in named; Some(named[0].id) else None
  }

  /** The listing keeps only rows that have an id. */
  function Usable(rows: seq<Row>): (r: seq<Row>)
    ensures forall x :: x in r <==> x in rows && x.id != ""
  {
    if rows == [] then []
    else if rows[0].id != "" then [rows[0]] + Usable(rows[1..]) else Usable(rows[1..])
  }

  /** Row `i` is the only one of the listing whose name folds to `folded`. */
  predicate OnlyNamed(rows: seq<Row>, folded: string, i: nat) {
    && i < |rows| && Text.Lower(rows[i].name) == folded
    && forall j :: 0 <= j < |rows| && j != i ==> Text.Lower(rows[j].name) != folded
  }

  lemma NoneNamed(rows: seq<Row>, folded: string)
    requires forall j :: 0 <= j < |rows| ==> Text.Lower(rows[j].name) != folded
    ensures ByName(rows, folded) == []
  {
    hide Text.Lower;
  }

  lemma {:induction false} OnlyNamedIsFound(rows: seq<Row>, folded: string, i: nat)
    requires OnlyNamed(rows, folded, i)
    ensures ByName(rows, folded) == [rows[i]]
    decreases |rows|
  {
    hide Text.Lower;
    assert forall j :: 0 <= j < |rows[1..]| ==> rows[1..][j] == rows[j + 1];
    if i == 0 {
      NoneNamed(rows[1..], folded);
    } else {
      OnlyNamedIsFound(rows[1..], folded, i - 1);
    }
  }

  lemma {:induction false} FoundAloneIsOnlyNamed(rows: seq<Row>, folded: string) returns (i: nat)
    requires |ByName(rows, folded)| == 1
    ensures OnlyNamed(rows, folded, i)
    decreases |rows|
  {
    hide Text.Lower;
    assert forall j :: 0 <= j < |rows[1..]| ==> rows[1..][j] == rows[j + 1];
    if Text.Lower(rows[0].name) == folded {
      i := 0;
      forall j | 1 <= j < |rows|
        ensures Text.Lower(rows[j].name) != folded
      {
        assert rows[1..][j - 1] in rows[1..] && ByName(rows[1..], folded) == [];
      }
    } else {
      var k := FoundAloneIsOnlyNamed(rows[1..], folded);
      i := k + 1;
      assert forall j :: 1 <= j < |rows| ==> rows[j] == rows[1..][j - 1];
    }
  }

  /** An id in the listing wins over any name; a name resolves exactly when one row alone bears it, to that row's id. */
  lemma ResolutionIsUnambiguous(rows: seq<Row>, ref: string)
    ensures var wanted := Text.Strip(ref);
            var r := Resolve(rows, ref);
            && (wanted in Ids(rows) ==> r == Some(wanted))
            && (wanted !in Ids(rows) ==>
                  && (r.Some? <==> exists i: nat :: OnlyNamed(rows, Text.Lower(wanted), i))
                  && forall i: nat :: OnlyNamed(rows, Text.Lower(wanted), i) ==> r == Some(rows[i].id))
  {
    hide Text.Strip, Text.Lower, OnlyNamed;
    var wanted := Text.Strip(ref);
    var folded := Text.Lower(wanted);
    forall i: nat | OnlyNamed(rows, folded, i)
      ensures i < |rows| && ByName(rows, folded) == [rows[i]]
    {
      OnlyNamedHasRow(rows, folded, i);
      OnlyNamedIsFound(rows, folded, i);
    }
    if |ByName(rows, folded)| == 1 {
      var i := FoundAloneIsOnlyNamed(rows, folded);
    }
  }

  lemma OnlyNamedHasRow(rows: seq<Row>, folded: string, i: nat)
    requires OnlyNamed(rows, folded, i)
    ensures i < |rows|
  {
  }

  /** A switch asks for the listing only with a reference and a credential. */
  predicate Asks(ref: string, loggedIn: bool) {
    Text.Strip(ref) != "" && loggedIn
  }

  /** `resolve_switch` on a remote backend: a workspace of the caller's listing, or None when it is refused. */
  function Choose(asks: bool, ref: string, rows: Option<seq<Row>>): (r: Option<string>)
    ensures r.Some? ==> asks && rows.Some? && r.value in Ids(Usable(rows.value))
  {
    if asks && rows.Some? then Resolve(Usable(rows.value), ref) else None
  }

  // ------------------------------------------------------------------ which workspace a reference names

  /** A row that has an id has this one. */
  predicate HasId(rows: seq<Row>, id: string) {
    id != "" && exists i :: 0 <= i < |rows| && rows[i].id == id
  }

  predicate Bears(row: Row, name: string) {
    row.id != "" && Text.Lower(row.name) == Text.Lower(name)
  }

  /** Row `i` is the only row with an id that bears the name, case folded. */
  predicate OnlyBears(rows: seq<Row>, name: string, i: nat) {
    i < |rows| && Bears(rows[i], name) && forall j :: 0 <= j < |rows| && j != i ==> !Bears(rows[j], name)
  }

  /** The reference names `id`: it is the id of a row, or else the name one row alone bears. */
  ghost predicate Names(rows: seq<Row>, ref: string, id: string) {
    var wanted := Text.Strip(ref);
    if HasId(rows, wanted) then id == wanted
    else exists i: nat :: OnlyBears(rows, wanted, i) && id == rows[i].id
  }

  /** A logged-in caller with a reference that is not blank and an answered listing. */
  predicate Asked(ref: string, loggedIn: bool, rows: Option<seq<Row>>) {
    Text.Strip(ref) != "" && loggedIn && rows.Some?
  }

  lemma {:induction false} NoneBearing(rows: seq<Row>, name: string)
    requires forall j :: 0 <= j < |rows| ==> !Bears(rows[j], name)
    ensures ByName(Usable(rows), Text.Lower(name)) == []
    decreases |rows|
  {
    hide Text.Lower;
    if rows != [] {
      assert forall j :: 0 <= j < |rows[1..]| ==> rows[1..][j] == rows[j + 1];
      assert !Bears(rows[0], name);
      NoneBearing(rows[1..], name);
      UsableUnfolds(rows, name);
    }
  }

  lemma UsableUnfolds(rows: seq<Row>, name: string)
    requires rows != []
    ensures ByName(Usable(rows), Text.Lower(name)) ==
            (if Bears(rows[0], name) then [rows[0]] else []) + ByName(Usable(rows[1..]), Text.Lower(name))
  {
    hide Text.Lower;
    if rows[0].id != "" {
      assert Usable(rows)[1..] == Usable(rows[1..]);
    }
  }

  lemma {:induction false} OnlyBearerIsFound(rows: seq<Row>, name: string, i: nat)
    requires OnlyBears(rows, name, i)
    ensures ByName(Usable(rows), Text.Lower(name)) == [rows[i]]
    decreases |rows|
  {
    hide Bears, Text.Lower;
    assert forall j :: 0 <= j < |rows[1..]| ==> rows[1..][j] == rows[j + 1];
    UsableUnfolds(rows, name);
    if i == 0 {
      NoneBearing(rows[1..], name);
    } else {
      OnlyBearerIsFound(rows[1..], name, i - 1);
    }
  }

  lemma {:induction false} BearersAreFound(rows: seq<Row>, name: string, i: nat)
    requires i < |rows| && Bears(rows[i], name)
    ensures ByName(Usable(rows), Text.Lower(name)) != []
    decreases |rows|
  {
    hide Bears, Text.Lower;
    UsableUnfolds(rows, name);
    if i > 0 { BearersAreFound(rows[1..], name, i - 1); }
  }

  lemma {:induction false} LoneFindIsOnlyBearer(rows: seq<Row>, name: string) returns (i: nat)
    requires |ByName(Usable(rows), Text.Lower(name))| == 1
    ensures OnlyBears(rows, name, i)
    decreases |rows|
  {
    hide Bears, Text.Lower, ByName, Usable;
    NothingBears(name);
    UsableUnfolds(rows, name);
    if Bears(rows[0], name) {
      i := 0;
      forall j | 1 <= j < |rows|
        ensures !Bears(rows[j], name)
      {
        assert rows[j] == rows[1..][j - 1];
        if Bears(rows[j], name) { BearersAreFound(rows[1..], name, j - 1); }
      }
    } else {
      var k := LoneFindIsOnlyBearer(rows[1..], name);
      i := k + 1;
      assert forall j :: 1 <= j < |rows| ==> rows[j] == rows[1..][j - 1];
    }
  }

  lemma NothingBears(name: string)
    ensures ByName(Usable([]), Text.Lower(name)) == []
  {
  }

  lemma UsableIds(rows: seq<Row>, id: string)
    requires id != ""
    ensures id in Ids(Usable(rows)) <==> HasId(rows, id)
  {
    if HasId(rows, id) {
      var i :| 0 <= i < |rows| && rows[i].id == id;
      assert rows[i] in Usable(rows);
    }
  }

  /** A switch chooses exactly what the reference names, when it may ask and was answered, and is refused otherwise. */
  lemma ChoosesWhatIsNamed(ref: string, loggedIn: bool, rows: Option<seq<Row>>)
    ensures var chosen := Choose(Asks(ref, loggedIn), ref, rows);
            && (chosen.Some? ==> Asked(ref, loggedIn, rows) && Names(rows.value, ref, chosen.value))
            && (forall id :: Asked(ref, loggedIn, rows) && Names(rows.value, ref, id) ==> chosen == Some(id))
  {
    hide Text.Strip, Text.Lower, Bears, OnlyBears, HasId;
    var wanted := Text.Strip(ref);
    if Asked(ref, loggedIn, rows) {
      UsableIds(rows.value, wanted);
      if !HasId(rows.value, wanted) {
        NamedByOne(rows.value, wanted);
      }
    }
  }

  lemma NamedByOne(rows: seq<Row>, name: string)
    ensures var named := ByName(Usable(rows), Text.Lower(name));
            && (|named| == 1 ==> exists i: nat :: OnlyBears(rows, name, i) && named[0].id == rows[i].id)
            && (forall i: nat :: OnlyBears(rows, name, i) ==> i < |rows| && named == [rows[i]])
  {
    hide Bears, Text.Lower;
    if |ByName(Usable(rows), Text.Lower(name))| == 1 {
      var i := LoneFindIsOnlyBearer(rows, name);
      OnlyBearerIsFound(rows, name, i);
    }
    forall i: nat | OnlyBears(rows, name, i)
      ensures i < |rows| && ByName(Usable(rows), Text.Lower(name)) == [rows[i]]
    {
      OnlyBearerIsFound(rows, name, i);
    }
  }
}
