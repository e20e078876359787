/**
 * The two `Skill:Level` text parsers and the benchmark formatter.
 *
 * The intern's quick assessment splits on `,` only and keeps an entry for
 * every piece, blank ones included. The admin's track form first turns
 * newlines into commas and skips blank pieces. Both read a non-blank item
 * the same way, and the admin form pre-fills its text area with a formatter
 * whose output the admin parser reads back unchanged.
 */
module Skills {
  import opened Wrappers
  import opened Text
  import opened Numerals
  import opened Lists

  /** Level given to an item that names none, or one `int` cannot read. */
  const DefaultLevel: int := 3

  /** A self-assessed skill entered at onboarding (`name`, `level`). */
  datatype UserSkill = UserSkill(name: string, level: int)

  /** A skill benchmark of a learning track (`name`, `minLevel`). */
  datatype Benchmark = Benchmark(name: string, minLevel: int)

  /** `int(text)`, falling back to the default level on `ValueError`. */
  function LevelOrDefault(text: string): int {
    ParseInt(text).GetOr(DefaultLevel)
  }

  /**
   * How both parsers read one stripped item: with a `:`, the stripped text
   * before the first `:` and the level read from the stripped text between
   * the first and the second `:`; without one, the item at the default level.
   */
  function ReadItem(item: string): (string, int) {
    if ':' in item then
      var parts := Split(item, ':');
      (Strip(parts[0]), LevelOrDefault(Strip(parts[1])))
    else
      (item, DefaultLevel)
  }

  /** The entry the quick input makes of one comma-separated piece. */
  function QuickSkill(piece: string): UserSkill {
    var (name, level) := ReadItem(Strip(piece));
    UserSkill(name, level)
  }

  /** The entries the quick input makes of a list of pieces, in order. */
  function QuickSkills(pieces: seq<string>): (r: seq<UserSkill>)
    ensures |r| == |pieces|
  {
    if pieces == [] then []
    else QuickSkills(pieces[..|pieces| - 1]) + [QuickSkill(pieces[|pieces| - 1])]
  }

  lemma {:induction false} QuickSkillsAt(pieces: seq<string>)
    ensures forall k | 0 <= k < |pieces| :: QuickSkills(pieces)[k] == QuickSkill(pieces[k])
  {
    if pieces != [] {
      var m := |pieces| - 1;
      QuickSkillsAt(pieces[..m]);
      assert forall k | 0 <= k < m :: pieces[..m][k] == pieces[k];
    }
  }

  /**
   * "Analyze with Quick Input": an empty text leaves the slider assessment
   * as it is; otherwise every comma-separated piece becomes one entry.
   */
  method QuickInputSkills(quickInput: string, assessed: seq<UserSkill>) returns (userSkills: seq<UserSkill>)
    ensures quickInput == "" ==> userSkills == assessed
    ensures quickInput != "" ==> |userSkills| == |Split(quickInput, ',')| == Occurrences(quickInput, ',') + 1
    ensures quickInput != "" ==>
      forall k | 0 <= k < |userSkills| :: userSkills[k] == QuickSkill(Split(quickInput, ',')[k])
  {
    userSkills := assessed;
    if quickInput != "" {
      var parsed: seq<UserSkill> := [];
      var items := Split(quickInput, ',');
      SplitLength(quickInput, ',');
      for n := 0 to |items|
        invariant parsed == QuickSkills(items[..n])
      {
        var item := Strip(items[n]);
        ghost var before := parsed;
        assert items[..n + 1][..n] == items[..n];
        if ':' in item {
          var parts := Split(item, ':');
          var name := Strip(parts[0]);
          match ParseInt(Strip(parts[1]))
          case Some(level) =>
            parsed := parsed + [UserSkill(name, level)];
          case None =>
            parsed := parsed + [UserSkill(name, DefaultLevel)];
        } else {
          parsed := parsed + [UserSkill(item, DefaultLevel)];
        }
        assert parsed == before + [QuickSkill(items[n])];
      }
      assert items[..|items|] == items;
      QuickSkillsAt(items);
      userSkills := parsed;
    }
  }

  /** An empty or whitespace-only piece becomes a nameless skill at the default level. */
  lemma QuickSkillBlank(piece: string)
    requires AllSpace(piece)
    ensures QuickSkill(piece) == UserSkill("", DefaultLevel)
  {
    StripEmptyIffBlank(piece);
  }

  /** A piece without `:` is its stripped text at the default level. */
  lemma QuickSkillPlain(piece: string)
    requires ':' !in piece
    ensures QuickSkill(piece) == UserSkill(Strip(piece), DefaultLevel)
  {
    if ':' in Strip(piece) {
      StripKeeps(piece, ':');
    }
  }

  /**
   * A piece `a:b` with no `:` in `a`: the name is `a` stripped, the level is
   * read from the stripped text of `b` up to its own first `:`, and the
   * default level is used where that is not an integer. Levels are not
   * clamped to 1..5.
   */
  lemma QuickSkillColon(a: string, b: string)
    requires ':' !in a
    ensures QuickSkill(a + ":" + b) == UserSkill(Strip(a), LevelOrDefault(Strip(Before(b, ':'))))
  {
    var la, rb := LStrip(a), RStrip(b);
    StripOfColon(a, b);
    LStripNoColon(a);
    SplitAtFirst(la, rb, ':');
    var parts := Split(Strip(a + ":" + b), ':');
    assert parts[0] == la && parts[1] == Before(rb, ':');
    LStripAt(la, 0);
    assert Strip(la) == Strip(a);
    BeforeOfRStrip(b);
  }

  /** Stripping `a:b` strips the front of `a` and the back of `b`. */
  lemma StripOfColon(a: string, b: string)
    ensures Strip(a + ":" + b) == LStrip(a) + [':'] + RStrip(b)
  {
    var la, rb := LStrip(a), RStrip(b);
    LStripSplit(a);
    RStripSplit(b);
    var x, y := a[..|a| - |la|], b[|rb|..];
    Regroup(x, la, ":", rb, y);
    StripAroundColon(x, la, rb, y);
  }

  lemma Regroup<T>(x: seq<T>, l: seq<T>, c: seq<T>, r: seq<T>, y: seq<T>)
    ensures (x + l) + c + (r + y) == x + (l + c + r) + y
  {
  }

  /** What `lstrip` keeps of a text without `:` has none either. */
  lemma LStripNoColon(a: string)
    requires ':' !in a
    ensures ':' !in LStrip(a)
  {
    var la := LStrip(a);
    LStripShape(a);
    forall k | 0 <= k < |la| ensures la[k] != ':' {
      assert la[k] == a[|a| - |la| + k];
    }
  }

  /** Stripping `x` + `la:rb` + `y`, with whitespace `x` and `y`, leaves `la:rb`. */
  lemma StripAroundColon(x: string, la: string, rb: string, y: string)
    requires AllSpace(x) && AllSpace(y)
    requires la == [] || !IsSpace(la[0])
    requires rb == [] || !IsSpace(rb[|rb| - 1])
    ensures Strip(x + (la + ":" + rb) + y) == la + ":" + rb
  {
    var m := la + ":" + rb;
    assert m[0] == if la == [] then ':' else la[0];
    assert m[|m| - 1] == if rb == [] then ':' else rb[|rb| - 1];
    StripMiddle(x, m, y);
  }

  /** The level text reads the same whether or not trailing whitespace was dropped first. */
  lemma BeforeOfRStrip(b: string)
    ensures Strip(Before(RStrip(b), ':')) == Strip(Before(b, ':'))
  {
    var rb := RStrip(b);
    RStripShape(b);
    if ':' in b {
      var f := FirstIndex(b, ':');
      assert !IsSpace(b[f]);
      assert f < |rb|;
      assert rb[f] == ':' && rb[..f] == b[..f];
      assert FirstIndex(rb, ':') == f;
    } else {
      assert ':' !in rb by {
        forall k | 0 <= k < |rb| ensures rb[k] != ':' {
          assert rb[k] == b[k];
        }
      }
      assert b == rb + b[|rb|..];
      StripPadRight(rb, b[|rb|..]);
    }
  }

  /** The benchmark one piece of the admin text yields: none when it is blank. */
  function BenchmarkOf(piece: string): seq<Benchmark> {
    var item := Strip(piece);
    if item == "" then []
    else
      var (name, level) := ReadItem(item);
      [Benchmark(name, level)]
  }

  /** The benchmarks a list of pieces yields, in order. */
  function Benchmarks(pieces: seq<string>): seq<Benchmark> {
    FlatMap(BenchmarkOf, pieces)
  }

  /** The admin text cut into items: newlines count as commas. */
  function BenchmarkPieces(skillsInput: string): seq<string> {
    Split(Replace(skillsInput, '\n', ','), ',')
  }

  /** The track form's parse of its "Required Skills" text. */
  method ParseBenchmarks(skillsInput: string) returns (required: seq<Benchmark>)
    ensures required == Benchmarks(BenchmarkPieces(skillsInput))
  {
    required := [];
    if skillsInput != "" {
      var items := Split(Replace(skillsInput, '\n', ','), ',');
      for n := 0 to |items|
        invariant required == Benchmarks(items[..n])
      {
        var item := Strip(items[n]);
        FlatMapAppend(BenchmarkOf, items[..n], items[n]);
        assert items[..n + 1] == items[..n] + [items[n]];
        if item != "" {
          if ':' in item {
            var parts := Split(item, ':');
            var name := Strip(parts[0]);
            match ParseInt(Strip(parts[1]))
            case Some(level) =>
              required := required + [Benchmark(name, level)];
            case None =>
              required := required + [Benchmark(name, DefaultLevel)];
          } else {
            required := required + [Benchmark(item, DefaultLevel)];
          }
        }
      }
      assert items[..|items|] == items;
    } else {
      assert Replace(skillsInput, '\n', ',') == "";
      assert BenchmarkPieces(skillsInput) == [""];
      assert Benchmarks([""]) == BenchmarkOf("") + FlatMap(BenchmarkOf, []);
    }
  }

  /**
   * The two parsers differ only on blank pieces: the admin form skips them,
   * and reads every other piece exactly as the quick input does.
   */
  lemma BenchmarkOfAsQuickSkill(piece: string)
    ensures AllSpace(piece) ==> BenchmarkOf(piece) == []
    ensures !AllSpace(piece) ==>
      BenchmarkOf(piece) == [Benchmark(QuickSkill(piece).name, QuickSkill(piece).level)]
  {
    StripEmptyIffBlank(piece);
  }

  /** No benchmark comes from a blank piece, so there are never more benchmarks than pieces. */
  lemma BenchmarksBound(pieces: seq<string>)
    ensures |Benchmarks(pieces)| <= |pieces|
    ensures (forall k | 0 <= k < |pieces| :: AllSpace(pieces[k])) ==> Benchmarks(pieces) == []
  {
    forall k | 0 <= k < |pieces| ensures |BenchmarkOf(pieces[k])| <= 1 {
      BenchmarkOfAsQuickSkill(pieces[k]);
    }
    FlatMapAtMostOne(BenchmarkOf, pieces);
    if forall k | 0 <= k < |pieces| :: AllSpace(pieces[k]) {
      forall k | 0 <= k < |pieces| ensures BenchmarkOf(pieces[k]) == [] {
        BenchmarkOfAsQuickSkill(pieces[k]);
      }
      FlatMapNone(BenchmarkOf, pieces);
    }
  }

  /** One benchmark as the edit form writes it: `name:minLevel`. */
  function FormatItem(b: Benchmark): string {
    b.name + ":" + IntToString(b.minLevel)
  }

  /** The text the edit form pre-fills: the items joined by `", "`. */
  function FormatBenchmarks(required: seq<Benchmark>): (r: string)
    ensures r == "" <==> required == []
  {
    Join(seq(|required|, k requires 0 <= k < |required| => FormatItem(required[k])), ", ")
  }

  /** A name the formatter can write so that the parser reads it back. */
  predicate PlainName(name: string) {
    IsStripped(name) && ',' !in name && ':' !in name && '\n' !in name
  }

  /** The level text `str(minLevel)` holds no separator and no whitespace at its ends. */
  lemma LevelTextPlain(n: int)
    ensures IsStripped(IntToString(n))
    ensures ':' !in IntToString(n) && ',' !in IntToString(n) && '\n' !in IntToString(n)
  {
    IntToStringChars(n);
  }

  /** A formatted item is stripped, holds no `,` or newline, and reads back as its benchmark. */
  lemma FormatItemPlain(b: Benchmark)
    requires PlainName(b.name)
    ensures FormatItem(b) != "" && IsStripped(FormatItem(b))
    ensures ',' !in FormatItem(b) && '\n' !in FormatItem(b)
    ensures ReadItem(FormatItem(b)) == (b.name, b.minLevel)
  {
    var lvl := IntToString(b.minLevel);
    var item := FormatItem(b);
    LevelTextPlain(b.minLevel);
    assert item == b.name + [':'] + lvl;
    assert item[|item| - 1] == lvl[|lvl| - 1];
    SplitAtFirst(b.name, lvl, ':');
    assert Split(item, ':') == [b.name, lvl];
    StripStripped(b.name);
    StripStripped(lvl);
    ParseIntToString(b.minLevel);
  }

  /** A formatted item, with or without whitespace in front, parses to that benchmark. */
  lemma BenchmarkOfItem(b: Benchmark, pad: string)
    requires PlainName(b.name) && AllSpace(pad)
    ensures BenchmarkOf(pad + FormatItem(b)) == [b]
  {
    FormatItemPlain(b);
    StripPadLeft(pad, FormatItem(b));
    StripStripped(FormatItem(b));
  }

  /**
   * The pieces the parser cuts the formatted text into: the first item, then
   * every other item behind the space of its `", "` separator.
   */
  lemma FormattedPieces(required: seq<Benchmark>) returns (pieces: seq<string>)
    requires |required| >= 1
    requires forall k | 0 <= k < |required| :: PlainName(required[k].name)
    ensures BenchmarkPieces(FormatBenchmarks(required)) == pieces
    ensures |pieces| == |required| && pieces[0] == FormatItem(required[0])
    ensures forall k | 1 <= k < |pieces| :: pieces[k] == " " + FormatItem(required[k])
  {
    var items := seq(|required|, k requires 0 <= k < |required| => FormatItem(required[k]));
    var text := FormatBenchmarks(required);
    forall k | 0 <= k < |items|
      ensures '\n' !in items[k] && ',' !in items[k]
    {
      FormatItemPlain(required[k]);
    }
    JoinAvoids(items, ", ", '\n');
    ReplaceAbsent(text, '\n', ',');
    assert text == Join(items, ", ");
    if |required| == 1 {
      pieces := items;
    } else {
      assert ", " == [','] + " ";
      JoinWideSeparator(items, ',', " ");
      pieces := [items[0]] + Prefixed(" ", items[1..]);
    }
    assert text == Join(pieces, [',']);
    SplitJoin(pieces, ',');
  }

  /**
   * Round trip of the edit form: re-parsing the pre-filled text gives back
   * the track's benchmarks, provided no name has surrounding whitespace or
   * holds a `,`, `:` or newline (an empty name reads back as itself).
   */
  lemma ParseFormatRoundTrip(required: seq<Benchmark>)
    requires forall k | 0 <= k < |required| :: PlainName(required[k].name)
    ensures Benchmarks(BenchmarkPieces(FormatBenchmarks(required))) == required
  {
    if |required| == 0 {
      assert Replace("", '\n', ',') == "";
      assert BenchmarkPieces("") == [""];
      assert Benchmarks([""]) == BenchmarkOf("") + FlatMap(BenchmarkOf, []);
    } else {
      var pieces := FormattedPieces(required);
      forall k | 0 <= k < |pieces|
        ensures BenchmarkOf(pieces[k]) == [required[k]]
      {
        var pad := if k == 0 then "" else " ";
        assert pieces[k] == pad + FormatItem(required[k]);
        BenchmarkOfItem(required[k], pad);
      }
      FlatMapPointwise(BenchmarkOf, pieces, required);
    }
  }
}
