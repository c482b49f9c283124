/** `GET /api/palette-couleurs/import-colors` (app/api/palette-couleurs/import-colors/route.js):
    reads a JSON object of colour name to hex value, keeps the well-formed hex
    values whose name is not yet in the palette, uppercases them and inserts them
    in one batch. The file read, the JSON parse and the database are parameters:
    the parse result, the set of names already in the palette, and whether the
    batch insert succeeds. */
module ImportColors {
  import opened Common

  /** A JSON value as the handler looks at it: a string, or anything else. */
  datatype JsonValue = JString(s: string) | JOther

  /** The outcome of reading and parsing the file. `Entries` is any JSON value of
      type "object" other than null, by its `Object.entries` (an array's entries
      are keyed by index); `NotObject` is every other value; `Unreadable` is a read
      or parse that throws. */
  datatype Parsed = Unreadable | NotObject | Entries(entries: seq<(string, JsonValue)>)

  /** A palette document as inserted. */
  datatype Color = Color(nom: string, hex: string)

  datatype Response = Response(status: int, success: bool, message: string, inserted: Option<nat>)

  const MsgInvalidFormat := "Format JSON invalide"
  const MsgAllExist := "Toutes les couleurs existent déjà"
  const MsgServerError := "Erreur serveur"

  predicate IsHexDigit(c: char) {
    ('0' <= c <= '9') || ('A' <= c <= 'F') || ('a' <= c <= 'f')
  }

  /** `[0-9A-Fa-f]{n}` matching all of `s`. */
  predicate HexRun(s: string, n: nat) {
    |s| == n && forall k :: 0 <= k < |s| ==> IsHexDigit(s[k])
  }

  /** `/^#([0-9A-Fa-f]{6}|[0-9A-Fa-f]{3})$/.test(s)`. */
  predicate ValidHex(s: string) {
    |s| > 0 && s[0] == '#' && (HexRun(s[1..], 6) || HexRun(s[1..], 3))
  }

  /** `typeof hex === 'string' && ValidHex(hex)`, and `findOne({ nom })` finds nothing. */
  predicate Keeps(e: (string, JsonValue), existing: set<string>) {
    e.1.JString? && ValidHex(e.1.s) && e.0 !in existing
  }

  /** `couleursToInsert` after the loop over `entries`. */
  function ToInsert(entries: seq<(string, JsonValue)>, existing: set<string>): seq<Color> {
    if entries == [] then []
    else
      var e := entries[|entries| - 1];
      ToInsert(entries[..|entries| - 1], existing)
        + (if Keeps(e, existing) then [Color(e.0, ToUpper(e.1.s))] else [])
  }

  /** The response for a given parse result, palette and insert outcome. */
  function ImportResponse(parsed: Parsed, existing: set<string>, insertSucceeds: bool): Response {
    match parsed
    case Unreadable => Response(500, false, MsgServerError, None)
    case NotObject => Response(400, false, MsgInvalidFormat, None)
    case Entries(entries) =>
      var batch := ToInsert(entries, existing);
      if batch == [] then Response(200, true, MsgAllExist, None)
      else if !insertSucceeds then Response(500, false, MsgServerError, None)
      else Response(201, true, "", Some(|batch|))
  }

  lemma ToInsertSnoc(entries: seq<(string, JsonValue)>, e: (string, JsonValue), existing: set<string>)
    ensures ToInsert(entries + [e], existing)
         == ToInsert(entries, existing) + (if Keeps(e, existing) then [Color(e.0, ToUpper(e.1.s))] else [])
  {
    assert (entries + [e])[..|entries|] == entries;
  }

  /** The handler. `batch` is what `insertMany` receives; it is empty when the
      handler returns before inserting. */
  method Import(parsed: Parsed, existing: set<string>, insertSucceeds: bool) returns (r: Response, batch: seq<Color>)
    ensures r == ImportResponse(parsed, existing, insertSucceeds)
    ensures batch == (if parsed.Entries? then ToInsert(parsed.entries, existing) else [])
  {
    if parsed.Unreadable? {
      return Response(500, false, MsgServerError, None), [];
    }
    if parsed.NotObject? {
      return Response(400, false, MsgInvalidFormat, None), [];
    }
    var entries := parsed.entries;
    batch := [];
    var i := 0;
    while i < |entries|
      invariant 0 <= i <= |entries|
      invariant batch == ToInsert(entries[..i], existing)
    {
      var (nom, hex) := entries[i];
      assert entries[..i + 1] == entries[..i] + [entries[i]];
      ToInsertSnoc(entries[..i], entries[i], existing);
      if hex.JString? && ValidHex(hex.s) {
        if nom !in existing {
          batch := batch + [Color(nom, ToUpper(hex.s))];
        }
      }
      i := i + 1;
    }
    assert entries[..|entries|] == entries;
    if |batch| == 0 {
      return Response(200, true, MsgAllExist, None), batch;
    }
    if !insertSucceeds {
      return Response(500, false, MsgServerError, None), batch;
    }
    r := Response(201, true, "", Some(|batch|));
  }

  // ---------------------------------------------------------------------------
  // Properties

  /** The status tells which path was taken: 400 only for a non-object, 200 only
      when nothing is new, 201 with the batch size otherwise. */
  lemma ResponseCases(parsed: Parsed, existing: set<string>, insertSucceeds: bool)
    ensures var r := ImportResponse(parsed, existing, insertSucceeds);
      && (r.status == 400 <==> parsed.NotObject?)
      && (r.status == 200 <==> parsed.Entries? && ToInsert(parsed.entries, existing) == [])
      && (r.status == 201 <==> parsed.Entries? && ToInsert(parsed.entries, existing) != [] && insertSucceeds)
      && (r.status == 201 ==> r.inserted == Some(|ToInsert(parsed.entries, existing)|))
      && (r.success <==> r.status == 200 || r.status == 201)
  {
  }

  /** A name is in the batch with hex `h` exactly when some entry maps it to a
      string that matches the pattern, uppercases to `h`, and the name is new. */
  lemma {:induction false} ToInsertMembers(entries: seq<(string, JsonValue)>, existing: set<string>, c: Color)
    ensures c in ToInsert(entries, existing) <==>
      exists e :: e in entries && Keeps(e, existing) && c == Color(e.0, ToUpper(e.1.s))
  {
    if entries != [] {
      var init, last := entries[..|entries| - 1], entries[|entries| - 1];
      assert entries == init + [last];
      ToInsertMembers(init, existing, c);
      if c in ToInsert(entries, existing) && c !in ToInsert(init, existing) {
        assert Keeps(last, existing) && c == Color(last.0, ToUpper(last.1.s));
      }
      if exists e :: e in entries && Keeps(e, existing) && c == Color(e.0, ToUpper(e.1.s)) {
        var e :| e in entries && Keeps(e, existing) && c == Color(e.0, ToUpper(e.1.s));
        if e != last {
          assert e in init;
        }
      }
    }
  }

  /** Every stored hex value still matches the pattern, is all upper case, and
      never contains a name already in the palette. */
  lemma {:induction false} ToInsertWellFormed(entries: seq<(string, JsonValue)>, existing: set<string>)
    ensures forall c :: c in ToInsert(entries, existing) ==>
      ValidHex(c.hex) && ToUpper(c.hex) == c.hex && c.nom !in existing
  {
    forall c | c in ToInsert(entries, existing)
      ensures ValidHex(c.hex) && ToUpper(c.hex) == c.hex && c.nom !in existing
    {
      ToInsertMembers(entries, existing, c);
      var e :| e in entries && Keeps(e, existing) && c == Color(e.0, ToUpper(e.1.s));
      UpperKeepsValidHex(e.1.s);
      ToUpperIdempotent(e.1.s);
    }
  }

  /** Uppercasing keeps a hex value that matches the pattern matching it. */
  lemma UpperKeepsValidHex(s: string)
    requires ValidHex(s)
    ensures ValidHex(ToUpper(s))
  {
    var u := ToUpper(s);
    assert u[0] == '#';
    forall k | 0 <= k < |u[1..]| ensures IsHexDigit(u[1..][k]) {
      assert u[1..][k] == UpperChar(s[1..][k]);
    }
  }

  /** The loop keeps entry order: the batch of a concatenation is the
      concatenation of the batches. */
  lemma {:induction false} ToInsertAppend(a: seq<(string, JsonValue)>, b: seq<(string, JsonValue)>, existing: set<string>)
    ensures ToInsert(a + b, existing) == ToInsert(a, existing) + ToInsert(b, existing)
    decreases |b|
  {
    if b == [] {
      assert a + b == a;
    } else {
      var init, last := b[..|b| - 1], b[|b| - 1];
      assert a + b == (a + init) + [last];
      ToInsertAppend(a, init, existing);
      ToInsertSnoc(a + init, last, existing);
      ToInsertSnoc(init, last, existing);
      assert init + [last] == b;
    }
  }

  function Names(cs: seq<Color>): (r: seq<string>)
    ensures |r| == |cs|
    ensures forall k :: 0 <= k < |cs| ==> r[k] == cs[k].nom
  {
    seq(|cs|, k requires 0 <= k < |cs| => cs[k].nom)
  }

  function Keys(entries: seq<(string, JsonValue)>): (r: seq<string>)
    ensures |r| == |entries|
    ensures forall k :: 0 <= k < |entries| ==> r[k] == entries[k].0
  {
    seq(|entries|, k requires 0 <= k < |entries| => entries[k].0)
  }

  /** `Object.entries` never repeats a key, so no name is inserted twice. */
  lemma {:induction false} ToInsertNoDup(entries: seq<(string, JsonValue)>, existing: set<string>)
    requires NoDup(Keys(entries))
    ensures NoDup(Names(ToInsert(entries, existing)))
  {
    if entries != [] {
      var init, last := entries[..|entries| - 1], entries[|entries| - 1];
      assert NoDup(Keys(init)) by {
        forall i, j | 0 <= i < j < |init| ensures Keys(init)[i] != Keys(init)[j] {
          assert Keys(entries)[i] != Keys(entries)[j];
        }
      }
      ToInsertNoDup(init, existing);
      var b := ToInsert(init, existing);
      if Keeps(last, existing) {
        var c := Color(last.0, ToUpper(last.1.s));
        forall k | 0 <= k < |b| ensures b[k].nom != last.0 {
          assert b[k] in b;
          ToInsertMembers(init, existing, b[k]);
          var e :| e in init && Keeps(e, existing) && b[k] == Color(e.0, ToUpper(e.1.s));
          var i :| 0 <= i < |init| && init[i] == e;
          assert Keys(entries)[i] != Keys(entries)[|entries| - 1];
        }
        assert ToInsert(entries, existing) == b + [c];
        var n := Names(b + [c]);
        forall i, j | 0 <= i < j < |n| ensures n[i] != n[j] {
          if j < |b| {
            assert n[i] == Names(b)[i] && n[j] == Names(b)[j];
          } else {
            assert n[i] == b[i].nom;
          }
        }
      }
    }
  }
}
