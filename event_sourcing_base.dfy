/** `EventSourcingBase` of the users example: rehydration that finds each
    row's reducer by NAME, `"Apply" + ConvertToCamelCase(event_type)`, among
    the members of the repository object. The members are a map from name to
    a member tag `R`, and `apply` runs the member a tag names; a member that
    throws yields `Err`. `GetRows` is a stub in the source, so the rows are
    given to `GetById`. */
module EventSourcingBase {
  import opened Common

  /** A row as `GetRows` returns it. */
  datatype EventSourcingRow<P> = EventSourcingRow(id: int, aggregateId: string, eventType: string, data: P,
                                                  insertedUtc: int, insertedBy: string)

  // ---------------------------------------------------------------------
  // Reducer names

  /** `toUpperCase` on one character, for ASCII: `a`..`z` become `A`..`Z`. */
  function Upper(c: char): char {
    if 'a' <= c <= 'z' then (c as int - 32) as char else c
  }

  /** `split("_")` scanning `s` left to right with `piece` the part of the
      current piece already read: every underscore ends a piece. */
  function SplitFrom(s: string, piece: string): (r: seq<string>)
    ensures |r| >= 1
  {
    if s == [] then [piece]
    else if s[0] == '_' then [piece] + SplitFrom(s[1..], [])
    else SplitFrom(s[1..], piece + [s[0]])
  }

  /** `input.split("_")`: the pieces between underscores, empty ones included;
      there is always at least one. */
  function Split(s: string): (r: seq<string>)
    ensures |r| >= 1
  {
    SplitFrom(s, [])
  }

  /** The pieces put back together with `_` between them. */
  function Join(pieces: seq<string>): string
    requires |pieces| >= 1
  {
    if |pieces| == 1 then pieces[0] else pieces[0] + "_" + Join(pieces[1..])
  }

  /** The number of underscores in `s`. */
  function Underscores(s: string): nat {
    if s == [] then 0 else (if s[0] == '_' then 1 else 0) + Underscores(s[1..])
  }

  /** `w.substring(0, 1).toUpperCase() + w.substring(1, w.length)`. */
  function Capitalize(w: string): (r: string)
    ensures |r| == |w|
  {
    if w == [] then [] else [Upper(w[0])] + w[1..]
  }

  /** The capitalised pieces, concatenated in order. */
  function ConcatCapitalized(pieces: seq<string>): string {
    if pieces == [] then [] else Capitalize(pieces[0]) + ConcatCapitalized(pieces[1..])
  }

  /** `ConvertToCamelCase` as a value: split on `_`, capitalise, concatenate. */
  function CamelCase(input: string): string {
    ConcatCapitalized(Split(input))
  }

  /** A character-by-character reading of the same conversion: drop every
      underscore and upper-case the character at the start and after each
      underscore (`capitalize` says whether the next character starts a piece). */
  function CamelFrom(s: string, capitalize: bool): string {
    if s == [] then []
    else if s[0] == '_' then CamelFrom(s[1..], true)
    else [if capitalize then Upper(s[0]) else s[0]] + CamelFrom(s[1..], false)
  }

  /** `BuildApplyFunctionName`: `Apply` followed by the camel-cased event type,
      so never longer than `Apply` and the event type together. */
  function BuildApplyFunctionName(eventType: string): (r: string)
    ensures "Apply" <= r && |r| <= 5 + |eventType|
  {
    CamelCaseShape(eventType);
    "Apply" + CamelCase(eventType)
  }

  lemma {:induction false} SplitFromJoin(s: string, piece: string)
    ensures Join(SplitFrom(s, piece)) == piece + s
  {
    if s == [] {
      assert piece + s == piece;
    } else if s[0] == '_' {
      SplitFromJoin(s[1..], []);
      var rest := SplitFrom(s[1..], []);
      assert SplitFrom(s, piece) == [piece] + rest;
      assert Join([piece] + rest) == piece + "_" + Join(rest) by {
        assert ([piece] + rest)[0] == piece && ([piece] + rest)[1..] == rest;
      }
      assert [] + s[1..] == s[1..];
      assert piece + s == piece + "_" + s[1..];
    } else {
      SplitFromJoin(s[1..], piece + [s[0]]);
      assert piece + [s[0]] + s[1..] == piece + s;
    }
  }

  lemma {:induction false} SplitFromCount(s: string, piece: string)
    ensures |SplitFrom(s, piece)| == Underscores(s) + 1
  {
    if s != [] {
      SplitFromCount(s[1..], if s[0] == '_' then [] else piece + [s[0]]);
    }
  }

  lemma {:induction false} SplitFromPieces(s: string, piece: string)
    requires '_' !in piece
    ensures forall k :: 0 <= k < |SplitFrom(s, piece)| ==> '_' !in SplitFrom(s, piece)[k]
  {
    if s == [] {
    } else if s[0] == '_' {
      SplitFromPieces(s[1..], []);
      var rest := SplitFrom(s[1..], []);
      assert SplitFrom(s, piece) == [piece] + rest;
      forall k | 0 <= k < |SplitFrom(s, piece)| ensures '_' !in SplitFrom(s, piece)[k] {
        if k > 0 {
          assert SplitFrom(s, piece)[k] == rest[k - 1];
        }
      }
    } else {
      SplitFromPieces(s[1..], piece + [s[0]]);
    }
  }

  /** Joining the pieces of a split gives the input back, and no piece holds an
      underscore: `split` cuts at every underscore and nowhere else. */
  lemma SplitJoin(s: string)
    ensures Join(Split(s)) == s
    ensures |Split(s)| == Underscores(s) + 1
    ensures forall k :: 0 <= k < |Split(s)| ==> '_' !in Split(s)[k]
  {
    SplitFromJoin(s, []);
    SplitFromCount(s, []);
    SplitFromPieces(s, []);
    assert [] + s == s;
  }

  /** Characters other than underscores only extend the current piece. */
  lemma {:induction false} SplitFromWord(w: string, rest: string, piece: string)
    requires '_' !in w
    ensures SplitFrom(w + rest, piece) == SplitFrom(rest, piece + w)
  {
    if w == [] {
      assert w + rest == rest && piece + w == piece;
    } else {
      assert (w + rest)[0] == w[0] && (w + rest)[1..] == w[1..] + rest;
      SplitFromWord(w[1..], rest, piece + [w[0]]);
      assert piece + [w[0]] + w[1..] == piece + w;
    }
  }

  lemma {:induction false} SplitFromOfJoin(pieces: seq<string>, piece: string)
    requires |pieces| >= 1
    requires forall k :: 0 <= k < |pieces| ==> '_' !in pieces[k]
    ensures SplitFrom(Join(pieces), piece) == [piece + pieces[0]] + pieces[1..]
  {
    var w := pieces[0];
    if |pieces| == 1 {
      SplitFromWord(w, [], piece);
      assert w + [] == w;
    } else {
      var tail := Join(pieces[1..]);
      SplitFromOfJoin(pieces[1..], []);
      SplitFromWord(w, "_" + tail, piece);
      assert Join(pieces) == w + ("_" + tail);
      assert ("_" + tail)[1..] == tail;
      assert [] + pieces[1] == pieces[1];
      assert [pieces[1]] + pieces[2..] == pieces[1..];
    }
  }

  /** Splitting pieces joined with `_` gives the pieces back, when none of them
      holds an underscore. */
  lemma SplitOfJoin(pieces: seq<string>)
    requires |pieces| >= 1
    requires forall k :: 0 <= k < |pieces| ==> '_' !in pieces[k]
    ensures Split(Join(pieces)) == pieces
  {
    SplitFromOfJoin(pieces, []);
    assert [] + pieces[0] == pieces[0];
    assert [pieces[0]] + pieces[1..] == pieces;
  }

  lemma CapitalizeSnoc(piece: string, c: char)
    ensures Capitalize(piece + [c]) == Capitalize(piece) + [if piece == [] then Upper(c) else c]
  {
    if piece != [] {
      assert (piece + [c])[1..] == piece[1..] + [c];
    }
  }

  /** The split-based conversion equals the character-by-character one. */
  lemma {:induction false} CamelCaseIsCamelFrom(s: string, piece: string, capitalize: bool)
    ensures var pieces := SplitFrom(s, piece);
            (if capitalize then Capitalize(pieces[0]) else pieces[0]) + ConcatCapitalized(pieces[1..])
            == (if capitalize then Capitalize(piece) else piece) + CamelFrom(s, capitalize && piece == [])
  {
    var head := if capitalize then Capitalize(piece) else piece;
    if s == [] {
      assert SplitFrom(s, piece) == [piece];
      assert [piece][1..] == [];
    } else if s[0] == '_' {
      CamelCaseIsCamelFrom(s[1..], [], true);
      var rest := SplitFrom(s[1..], []);
      assert SplitFrom(s, piece) == [piece] + rest;
      assert ([piece] + rest)[0] == piece && ([piece] + rest)[1..] == rest;
      assert ConcatCapitalized(rest) == Capitalize(rest[0]) + ConcatCapitalized(rest[1..]);
      assert Capitalize([]) == [];
      assert CamelFrom(s, capitalize && piece == []) == CamelFrom(s[1..], true);
    } else {
      var c := s[0];
      var pieces := SplitFrom(s, piece);
      assert pieces == SplitFrom(s[1..], piece + [c]);
      CamelCaseIsCamelFrom(s[1..], piece + [c], capitalize);
      var c' := if capitalize && piece == [] then Upper(c) else c;
      CapitalizeSnoc(piece, c);
      var longer := if capitalize then Capitalize(piece + [c]) else piece + [c];
      assert longer == head + [c'];
      assert CamelFrom(s, capitalize && piece == []) == [c'] + CamelFrom(s[1..], false);
      assert head + [c'] + CamelFrom(s[1..], false) == head + ([c'] + CamelFrom(s[1..], false));
    }
  }

  /** `ConvertToCamelCase(input)` is the character-by-character conversion. */
  lemma CamelCaseReference(input: string)
    ensures CamelCase(input) == CamelFrom(input, true)
  {
    CamelCaseIsCamelFrom(input, [], true);
    var pieces := Split(input);
    assert pieces == [pieces[0]] + pieces[1..];
  }

  lemma {:induction false} CamelFromShape(s: string, capitalize: bool)
    ensures |CamelFrom(s, capitalize)| == |s| - Underscores(s)
    ensures '_' !in CamelFrom(s, capitalize)
  {
    if s != [] {
      CamelFromShape(s[1..], s[0] == '_');
      if s[0] != '_' {
        var c := if capitalize then Upper(s[0]) else s[0];
        assert c != '_';
      }
    }
  }

  /** The converted name holds no underscore and is shorter than the input by
      the number of underscores. */
  lemma CamelCaseShape(input: string)
    ensures '_' !in CamelCase(input)
    ensures |CamelCase(input)| == |input| - Underscores(input)
  {
    CamelCaseReference(input);
    CamelFromShape(input, true);
  }

  /** The apply-function name is `Apply` followed by the character-by-character
      reading of the conversion. */
  lemma ApplyFunctionNameReference(eventType: string)
    ensures BuildApplyFunctionName(eventType) == "Apply" + CamelFrom(eventType, true)
  {
    CamelCaseReference(eventType);
  }

  /** The apply-function name starts with `Apply`, holds no underscore, and is
      one character shorter than `Apply` plus the event type for each
      underscore dropped. */
  lemma ApplyFunctionNameShape(eventType: string)
    ensures var r := BuildApplyFunctionName(eventType);
            && |r| == 5 + |eventType| - Underscores(eventType)
            && '_' !in r
  {
    CamelCaseShape(eventType);
    var r := BuildApplyFunctionName(eventType);
    assert forall i :: 5 <= i < |r| ==> r[i] == CamelCase(eventType)[i - 5];
  }

  /** The event type of the users aggregate names its reducer. */
  lemma UserCreatedName()
    ensures Split("user_created_v1") == ["user", "created", "v1"]
    ensures BuildApplyFunctionName("user_created_v1") == "ApplyUserCreatedV1"
  {
    assert Join(["user", "created", "v1"]) == "user_created_v1";
    SplitOfJoin(["user", "created", "v1"]);
  }

  /** Distinct event types can share a reducer name: a doubled underscore, or a
      first letter already in upper case, is lost in the conversion. */
  lemma NameCollision()
    ensures BuildApplyFunctionName("user_created") == "ApplyUserCreated"
    ensures BuildApplyFunctionName("user__created") == "ApplyUserCreated"
    ensures BuildApplyFunctionName("User_created") == "ApplyUserCreated"
  {
    NameOfUserCreated();
    NameOfDoubledUnderscore();
    LeadingCapitalCollides();
  }

  lemma NameOfUserCreated()
    ensures BuildApplyFunctionName("user_created") == "ApplyUserCreated"
  {
    CapitalizedWords();
    NameOfTwoPieces("user", "created");
    assert "user" + "_" + "created" == "user_created";
    assert "Apply" + "User" + "Created" == "ApplyUserCreated";
  }

  /** Capitalising the first letter of an event type does not change its name. */
  lemma LeadingCapitalCollides()
    ensures BuildApplyFunctionName("User_created") == BuildApplyFunctionName("user_created")
  {
    CapitalizedWords();
    NameOfTwoPieces("user", "created");
    assert "user" + "_" + "created" == "user_created";
    NameOfTwoPieces("User", "created");
    assert "User" + "_" + "created" == "User_created";
  }

  /** A two-piece event type names `Apply` followed by both pieces capitalised. */
  lemma NameOfTwoPieces(first: string, second: string)
    requires '_' !in first && '_' !in second
    ensures BuildApplyFunctionName(first + "_" + second) == "Apply" + Capitalize(first) + Capitalize(second)
  {
    NameOfPieces([first, second]);
    assert Join([first, second]) == first + "_" + second;
    assert [first, second][1..] == [second];
    assert ConcatCapitalized([second]) == Capitalize(second) + ConcatCapitalized([]);
  }

  lemma CapitalizedWords()
    ensures Capitalize("user") == "User" && Capitalize("User") == "User"
    ensures Capitalize("created") == "Created"
  {
  }

  lemma NameOfDoubledUnderscore()
    ensures BuildApplyFunctionName("user__created") == "ApplyUserCreated"
  {
    NameOfPieces(["user", "", "created"]);
    assert Join(["user", "", "created"]) == "user__created";
  }

  /** Pieces with no underscore, joined into an event type, name the function
      `Apply` followed by each piece capitalised. */
  lemma NameOfPieces(pieces: seq<string>)
    requires |pieces| >= 1
    requires forall k :: 0 <= k < |pieces| ==> '_' !in pieces[k]
    ensures BuildApplyFunctionName(Join(pieces)) == "Apply" + ConcatCapitalized(pieces)
  {
    SplitOfJoin(pieces);
  }

  lemma {:induction false} ConcatCapitalizedAppend(pieces: seq<string>, w: string)
    ensures ConcatCapitalized(pieces + [w]) == ConcatCapitalized(pieces) + Capitalize(w)
  {
    if pieces == [] {
      assert [w][1..] == [];
    } else {
      assert (pieces + [w])[1..] == pieces[1..] + [w];
      ConcatCapitalizedAppend(pieces[1..], w);
    }
  }

  /** `ConvertToCamelCase`: the `forEach` over the pieces, appending each
      capitalised piece to `word`. */
  method ConvertToCamelCase(input: string) returns (word: string)
    ensures word == CamelCase(input)
    ensures word == CamelFrom(input, true)
  {
    var split := Split(input);
    word := "";
    var i := 0;
    while i < |split|
      invariant 0 <= i <= |split|
      invariant word == ConcatCapitalized(split[..i])
    {
      ConcatCapitalizedAppend(split[..i], split[i]);
      assert split[..i + 1] == split[..i] + [split[i]];
      word := word + Capitalize(split[i]);
      i := i + 1;
    }
    assert split[..i] == split;
    CamelCaseReference(input);
  }

  // ---------------------------------------------------------------------
  // Rehydration

  /** One iteration of the loop in `ApplyEventRows`: find the member named
      after the row's event type, or fail. */
  function ApplyRow<P, R, S>(members: map<string, R>, apply: (R, P, S, EventSourcingRow<P>) -> Result<S>,
                             instance: S, row: EventSourcingRow<P>): (r: Result<S>)
    ensures BuildApplyFunctionName(row.eventType) !in members ==>
              r == Err(MissingApplyFunction(BuildApplyFunctionName(row.eventType)))
  {
    var fnName := BuildApplyFunctionName(row.eventType);
    if fnName !in members then Err(MissingApplyFunction(fnName))
    else apply(members[fnName], row.data, instance, row)
  }

  /** The rows applied in order to `instance`; the first failure ends it. */
  function ApplyRows<P, R, S>(rows: seq<EventSourcingRow<P>>, members: map<string, R>,
                              apply: (R, P, S, EventSourcingRow<P>) -> Result<S>, instance: S): Result<S>
  {
    if rows == [] then Ok(instance)
    else
      match ApplyRow(members, apply, instance, rows[0])
      case Err(e) => Err(e)
      case Ok(next) => ApplyRows(rows[1..], members, apply, next)
  }

  /** `GetById` on the rows `GetRows` returned: absent when there are none,
      otherwise the rows applied to `{ id: rows[0].aggregate_id }`. */
  function Rehydrate<P, R, S>(rows: seq<EventSourcingRow<P>>, members: map<string, R>,
                              apply: (R, P, S, EventSourcingRow<P>) -> Result<S>, initial: string -> S)
    : (r: Result<Option<S>>)
    ensures r == Ok(None) <==> rows == []
  {
    if rows == [] then Ok(None)
    else
      match ApplyRows(rows, members, apply, initial(rows[0].aggregateId))
      case Err(e) => Err(e)
      case Ok(s) => Ok(Some(s))
  }

  lemma {:induction false} ApplyRowsAppend<P, R, S>(a: seq<EventSourcingRow<P>>, b: seq<EventSourcingRow<P>>,
                                                   members: map<string, R>,
                                                   apply: (R, P, S, EventSourcingRow<P>) -> Result<S>, instance: S)
    ensures ApplyRows(a + b, members, apply, instance)
         == match ApplyRows(a, members, apply, instance)
            case Err(e) => Err(e)
            case Ok(s) => ApplyRows(b, members, apply, s)
  {
    if a == [] {
      assert a + b == b;
    } else {
      assert (a + b)[0] == a[0] && (a + b)[1..] == a[1..] + b;
      match ApplyRow(members, apply, instance, a[0])
      case Err(e) =>
        assert ApplyRows(a + b, members, apply, instance) == Err(e);
      case Ok(next) =>
        ApplyRowsAppend(a[1..], b, members, apply, next);
        assert ApplyRows(a + b, members, apply, instance) == ApplyRows(a[1..] + b, members, apply, next);
    }
  }

  /** A row whose reducer name is not a member ends rehydration with that name
      as the error, once the rows before it applied; the rows after it are not
      applied. */
  lemma MissingMemberStops<P, R, S>(rows: seq<EventSourcingRow<P>>, k: nat, members: map<string, R>,
                                    apply: (R, P, S, EventSourcingRow<P>) -> Result<S>, instance: S)
    requires k < |rows| && BuildApplyFunctionName(rows[k].eventType) !in members
    requires ApplyRows(rows[..k], members, apply, instance).Ok?
    ensures ApplyRows(rows, members, apply, instance)
         == Err(MissingApplyFunction(BuildApplyFunctionName(rows[k].eventType)))
  {
    assert rows == rows[..k] + rows[k..];
    ApplyRowsAppend(rows[..k], rows[k..], members, apply, instance);
  }

  /** A successful rehydration found a member for every row. */
  lemma {:induction false} ApplyRowsOkAllFound<P, R, S>(rows: seq<EventSourcingRow<P>>, members: map<string, R>,
                                                       apply: (R, P, S, EventSourcingRow<P>) -> Result<S>, instance: S)
    requires ApplyRows(rows, members, apply, instance).Ok?
    ensures forall i :: 0 <= i < |rows| ==> BuildApplyFunctionName(rows[i].eventType) in members
  {
    if rows != [] {
      var next := ApplyRow(members, apply, instance, rows[0]);
      ApplyRowsOkAllFound(rows[1..], members, apply, next.value);
      forall i | 0 <= i < |rows| ensures BuildApplyFunctionName(rows[i].eventType) in members {
        if i > 0 { assert rows[i] == rows[1..][i - 1]; }
      }
    }
  }

  /** `ApplyEventRows`: the loop reassigning `instance`, starting from `{}` with
      `id` set to the first row's aggregate id. */
  method ApplyEventRows<P, R, S>(rows: seq<EventSourcingRow<P>>, members: map<string, R>,
                                 apply: (R, P, S, EventSourcingRow<P>) -> Result<S>, initial: string -> S)
    returns (r: Result<S>)
    requires |rows| > 0
    ensures r == ApplyRows(rows, members, apply, initial(rows[0].aggregateId))
  {
    var instance := initial(rows[0].aggregateId);
    var i := 0;
    while i < |rows|
      invariant 0 <= i <= |rows|
      invariant ApplyRows(rows, members, apply, initial(rows[0].aggregateId))
             == ApplyRows(rows[i..], members, apply, instance)
    {
      var row := rows[i];
      assert rows[i..][0] == row && rows[i..][1..] == rows[i + 1..];
      var fnName := BuildApplyFunctionName(row.eventType);
      if fnName !in members {
        return Err(MissingApplyFunction(fnName));
      }
      var next := apply(members[fnName], row.data, instance, row);
      if next.Err? {
        return Err(next.error);
      }
      instance := next.value;
      i := i + 1;
    }
    assert rows[i..] == [];
    return Ok(instance);
  }

  /** `GetById`. */
  method GetById<P, R, S>(rows: seq<EventSourcingRow<P>>, members: map<string, R>,
                          apply: (R, P, S, EventSourcingRow<P>) -> Result<S>, initial: string -> S)
    returns (r: Result<Option<S>>)
    ensures r == Rehydrate(rows, members, apply, initial)
  {
    if |rows| == 0 {
      return Ok(None);
    }
    var applied := ApplyEventRows(rows, members, apply, initial);
    match applied
    case Err(e) => r := Err(e);
    case Ok(s) => r := Ok(Some(s));
  }
}
