// The command line of the deprecation script (parseArgs in tools/deployments/deprecate.ts).

module Args {
  import opened Common

  datatype PackageSpec = PackageSpec(name: string, version: string, rollbackVersion: Option<string>)

  datatype Parsed = Parsed(packages: seq<PackageSpec>, reason: string, dryRun: bool)

  datatype Error =
    | ReasonNeedsValue
    | UnknownFlag(arg: string)
    | InvalidSpecifier(arg: string)
    | NoPackages
    | ReasonRequired

  /** The last position of `c` among the first `n` characters, -1 if there is none. */
  function LastBefore(s: string, c: char, n: nat): (i: int)
    requires n <= |s|
    ensures -1 <= i < n && (i >= 0 ==> s[i] == c) && forall j :: i < j < n ==> s[j] != c
  {
    if n == 0 then -1 else if s[n - 1] == c then n - 1 else LastBefore(s, c, n - 1)
  }

  function LastIndexOf(s: string, c: char): int {
    LastBefore(s, c, |s|)
  }

  /** The first position of `c` at or after `from`, -1 if there is none. */
  function IndexFrom(s: string, c: char, from: nat): (i: int)
    requires from <= |s|
    ensures i == -1 || from <= i < |s|
    ensures i >= 0 ==> s[i] == c && forall j :: from <= j < i ==> s[j] != c
    ensures i == -1 ==> forall j :: from <= j < |s| ==> s[j] != c
    decreases |s| - from
  {
    if from == |s| then -1 else if s[from] == c then from else IndexFrom(s, c, from + 1)
  }

  function IndexOf(s: string, c: char): int {
    IndexFrom(s, c, 0)
  }

  predicate IsFlag(arg: string) {
    "--" <= arg
  }

  function ParseSpec(arg: string): Result<PackageSpec, Error> {
    var atIndex := LastIndexOf(arg, '@');
    if atIndex <= 0 then Err(InvalidSpecifier(arg))
    else
      var name, versionPart := arg[..atIndex], arg[atIndex + 1..];
      if versionPart == "" then Err(InvalidSpecifier(arg))
      else
        var arrowIndex := IndexOf(versionPart, '>');
        if arrowIndex == -1 then Ok(PackageSpec(name, versionPart, None))
        else
          var version, rollback := versionPart[..arrowIndex], versionPart[arrowIndex + 1..];
          if version == "" || rollback == "" then Err(InvalidSpecifier(arg))
          else Ok(PackageSpec(name, version, Some(rollback)))
  }

  /** The result of reading `argv` after what has been read so far. */
  function ParseFrom(argv: seq<string>, soFar: Parsed): Result<Parsed, Error> {
    if argv == [] then
      if soFar.packages == [] then Err(NoPackages)
      else if soFar.reason == "" then Err(ReasonRequired)
      else Ok(soFar)
    else if argv[0] == "--reason" then
      if |argv| == 1 then Err(ReasonNeedsValue) else ParseFrom(argv[2..], soFar.(reason := argv[1]))
    else if argv[0] == "--dry-run" then ParseFrom(argv[1..], soFar.(dryRun := true))
    else if IsFlag(argv[0]) then Err(UnknownFlag(argv[0]))
    else
      var spec := ParseSpec(argv[0]);
      if spec.Err? then Err(spec.error)
      else ParseFrom(argv[1..], soFar.(packages := soFar.packages + [spec.value]))
  }

  const NOTHING := Parsed([], "", false)

  method ParseArgs(argv: seq<string>) returns (r: Result<Parsed, Error>)
    ensures r == ParseFrom(argv, NOTHING)
    ensures forall parsed :: r == Ok(parsed) <==> Says(argv, parsed)
  {
    forall parsed ensures ParseFrom(argv, NOTHING) == Ok(parsed) <==> Says(argv, parsed) {
      ParsesExactly(argv, parsed);
    }
    var packages: seq<PackageSpec>, reason, dryRun := [], "", false;
    var i := 0;
    assert argv[0..] == argv;
    while i < |argv|
      invariant 0 <= i <= |argv|
      invariant ParseFrom(argv[i..], Parsed(packages, reason, dryRun)) == ParseFrom(argv, NOTHING)
    {
      var arg := argv[i];
      assert argv[i..][1..] == argv[i + 1..];
      if arg == "--reason" {
        i := i + 1;
        if i >= |argv| {
          return Err(ReasonNeedsValue);
        }
        assert argv[i - 1..][2..] == argv[i + 1..];
        reason := argv[i];
      } else if arg == "--dry-run" {
        dryRun := true;
      } else if IsFlag(arg) {
        return Err(UnknownFlag(arg));
      } else {
        var spec := ParseSpec(arg);
        if spec.Err? {
          return Err(spec.error);
        }
        packages := packages + [spec.value];
      }
      i := i + 1;
    }
    assert argv[i..] == [];
    if |packages| == 0 {
      return Err(NoPackages);
    }
    if reason == "" {
      return Err(ReasonRequired);
    }
    return Ok(Parsed(packages, reason, dryRun));
  }

  // ---------------------------------------------------------------- printing

  function PrintSpec(spec: PackageSpec): string {
    spec.name + "@" + spec.version + if spec.rollbackVersion.Some? then ">" + spec.rollbackVersion.value else ""
  }

  /** The specs that the command line can express. */
  predicate Expressible(spec: PackageSpec) {
    && spec.name != "" && !IsFlag(spec.name)
    && spec.version != "" && '@' !in spec.version && '>' !in spec.version
    && (spec.rollbackVersion.Some? ==> spec.rollbackVersion.value != "" && '@' !in spec.rollbackVersion.value)
  }

  datatype Item = SpecItem(spec: PackageSpec) | ReasonItem(text: string) | DryRunItem

  function Print(items: seq<Item>): seq<string> {
    if items == [] then []
    else
      (match items[0]
       case SpecItem(spec) => [PrintSpec(spec)]
       case ReasonItem(text) => ["--reason", text]
       case DryRunItem => ["--dry-run"]) + Print(items[1..])
  }

  /** What the items say: the specs in order, the last reason, whether a dry run was asked for. */
  function Meaning(items: seq<Item>, soFar: Parsed): Parsed {
    if items == [] then soFar
    else Meaning(items[1..],
      match items[0]
      case SpecItem(spec) => soFar.(packages := soFar.packages + [spec])
      case ReasonItem(text) => soFar.(reason := text)
      case DryRunItem => soFar.(dryRun := true))
  }

  lemma LastAt(name: string, rest: string)
    requires '@' !in rest
    ensures LastIndexOf(name + "@" + rest, '@') == |name|
  {
    var s := name + "@" + rest;
    assert s[|name|] == '@';
    forall j | |name| < j < |s| ensures s[j] != '@' {
      assert s[j] == rest[j - |name| - 1];
    }
  }

  lemma FirstArrow(version: string, rollback: string)
    requires '>' !in version
    ensures IndexOf(version + ">" + rollback, '>') == |version|
  {
    var s := version + ">" + rollback;
    assert s[|version|] == '>';
    forall j | 0 <= j < |version| ensures s[j] != '>' {
      assert s[j] == version[j];
    }
  }

  /** The part of a specifier after the last `@`. */
  function PrintVersions(spec: PackageSpec): string {
    spec.version + if spec.rollbackVersion.Some? then ">" + spec.rollbackVersion.value else ""
  }

  lemma ParseSpecUndoesPrint(spec: PackageSpec)
    requires Expressible(spec)
    ensures ParseSpec(PrintSpec(spec)) == Ok(spec)
  {
    var arg, rest := PrintSpec(spec), PrintVersions(spec);
    assert arg == spec.name + "@" + rest;
    LastAt(spec.name, rest);
    assert arg[..|spec.name|] == spec.name;
    assert arg[|spec.name| + 1..] == rest;
    VersionsSplit(spec);
  }

  lemma VersionsSplit(spec: PackageSpec)
    requires Expressible(spec)
    ensures PrintVersions(spec) != ""
    ensures var rest, arrow := PrintVersions(spec), IndexOf(PrintVersions(spec), '>');
      if spec.rollbackVersion.None? then rest == spec.version && arrow == -1
      else arrow == |spec.version| && rest[..arrow] == spec.version && rest[arrow + 1..] == spec.rollbackVersion.value
  {
    if spec.rollbackVersion.Some? {
      FirstArrow(spec.version, spec.rollbackVersion.value);
      assert PrintVersions(spec) == spec.version + ">" + spec.rollbackVersion.value;
    } else {
      assert PrintVersions(spec) == spec.version;
    }
  }

  lemma FlaggedName(spec: PackageSpec)
    requires spec.name != "" && IsFlag(PrintSpec(spec))
    ensures IsFlag(spec.name)
  {
    var arg := PrintSpec(spec);
    assert arg[..|spec.name|] == spec.name && arg[|spec.name|] == '@';
    assert arg[0] == '-' && arg[1] == '-';
    assert |spec.name| >= 2;
  }

  lemma PrintedIsNoFlag(spec: PackageSpec)
    requires Expressible(spec)
    ensures !IsFlag(PrintSpec(spec))
  {
    if IsFlag(PrintSpec(spec)) {
      FlaggedName(spec);
    }
  }

  /** Parsing undoes printing, whatever the order of the specs and flags, and however often a
      flag is given; what is missing is reported. */
  lemma {:induction false} ParseUndoesPrint(items: seq<Item>, soFar: Parsed)
    requires forall i :: 0 <= i < |items| && items[i].SpecItem? ==> Expressible(items[i].spec)
    ensures ParseFrom(Print(items), soFar) ==
      var meaning := Meaning(items, soFar);
      if meaning.packages == [] then Err(NoPackages)
      else if meaning.reason == "" then Err(ReasonRequired)
      else Ok(meaning)
  {
    if items == [] {
    } else {
      var argv, rest := Print(items), Print(items[1..]);
      match items[0]
      case SpecItem(spec) =>
        ParseSpecUndoesPrint(spec);
        PrintedIsNoFlag(spec);
        NotAKnownFlag(PrintSpec(spec));
        assert argv[1..] == rest;
        ParseUndoesPrint(items[1..], soFar.(packages := soFar.packages + [spec]));
      case ReasonItem(text) =>
        assert argv == ["--reason", text] + rest && argv[2..] == rest;
        ParseUndoesPrint(items[1..], soFar.(reason := text));
      case DryRunItem =>
        assert argv[1..] == rest;
        assert "--dry-run"[2] == 'd' && "--reason"[2] == 'r';
        ParseUndoesPrint(items[1..], soFar.(dryRun := true));
    }
  }

  lemma NotAKnownFlag(arg: string)
    requires !IsFlag(arg)
    ensures arg != "--reason" && arg != "--dry-run"
  {
    assert IsFlag("--reason") && IsFlag("--dry-run");
  }

  /** Whatever parses can be printed again, so parsing reaches exactly the expressible results. */
  lemma {:induction false} ParsedIsExpressible(argv: seq<string>, soFar: Parsed)
    requires ParseFrom(argv, soFar).Ok?
    requires forall spec :: spec in soFar.packages ==> Expressible(spec)
    ensures forall spec :: spec in ParseFrom(argv, soFar).value.packages ==> Expressible(spec)
    ensures ParseFrom(argv, soFar).value.packages != [] && ParseFrom(argv, soFar).value.reason != ""
    decreases |argv|
  {
    if argv == [] {
    } else if argv[0] == "--reason" {
      ParsedIsExpressible(argv[2..], soFar.(reason := argv[1]));
    } else if argv[0] == "--dry-run" {
      ParsedIsExpressible(argv[1..], soFar.(dryRun := true));
    } else {
      SpecIsExpressible(argv[0]);
      ParsedIsExpressible(argv[1..], soFar.(packages := soFar.packages + [ParseSpec(argv[0]).value]));
    }
  }

  lemma SlicesLack(s: string, c: char, at: nat)
    requires c !in s && at < |s|
    ensures c !in s[..at] && c !in s[at + 1..]
  {
  }

  lemma NoneAfterLast(s: string, c: char)
    ensures c !in s[LastIndexOf(s, c) + 1..]
  {
  }

  lemma NoneBeforeFirst(s: string, c: char)
    requires IndexOf(s, c) >= 0
    ensures c !in s[..IndexOf(s, c)]
  {
  }

  lemma FlaggedPrefix(arg: string, n: nat)
    requires n <= |arg| && IsFlag(arg[..n])
    ensures IsFlag(arg)
  {
    assert arg[..n][..2] == arg[..2];
  }

  lemma SpecIsExpressible(arg: string)
    requires !IsFlag(arg) && ParseSpec(arg).Ok?
    ensures Expressible(ParseSpec(arg).value)
  {
    var at := LastIndexOf(arg, '@');
    var versionPart := arg[at + 1..];
    if IsFlag(arg[..at]) {
      FlaggedPrefix(arg, at);
    }
    NoneAfterLast(arg, '@');
    var arrow := IndexOf(versionPart, '>');
    if arrow != -1 {
      SlicesLack(versionPart, '@', arrow);
      NoneBeforeFirst(versionPart, '>');
    }
  }

  function Items(parsed: Parsed): seq<Item> {
    [ReasonItem(parsed.reason)] + (if parsed.dryRun then [DryRunItem] else []) + SpecItems(parsed.packages)
  }

  function SpecItems(specs: seq<PackageSpec>): seq<Item> {
    if specs == [] then [] else [SpecItem(specs[0])] + SpecItems(specs[1..])
  }

  lemma {:induction false} SpecItemsAreSpecs(specs: seq<PackageSpec>)
    ensures |SpecItems(specs)| == |specs| && forall i :: 0 <= i < |specs| ==> SpecItems(specs)[i] == SpecItem(specs[i])
  {
    if specs == [] {
    } else {
      SpecItemsAreSpecs(specs[1..]);
    }
  }

  lemma {:induction false} SpecItemsMean(specs: seq<PackageSpec>, soFar: Parsed)
    ensures Meaning(SpecItems(specs), soFar) == soFar.(packages := soFar.packages + specs)
  {
    if specs == [] {
      assert soFar.packages + specs == soFar.packages;
    } else {
      var items := SpecItems(specs);
      assert items[1..] == SpecItems(specs[1..]) && items[0] == SpecItem(specs[0]);
      SpecItemsMean(specs[1..], soFar.(packages := soFar.packages + [specs[0]]));
      assert soFar.packages + [specs[0]] + specs[1..] == soFar.packages + specs;
    }
  }

  /** Printing what was parsed and parsing it again gives the same result. */
  lemma PrintUndoesParse(argv: seq<string>)
    requires ParseFrom(argv, NOTHING).Ok?
    ensures var parsed := ParseFrom(argv, NOTHING).value; ParseFrom(Print(Items(parsed)), NOTHING) == Ok(parsed)
  {
    var parsed := ParseFrom(argv, NOTHING).value;
    ParsedIsExpressible(argv, NOTHING);
    SpecItemsAreSpecs(parsed.packages);
    ParseUndoesPrint(Items(parsed), NOTHING);
    var specs := SpecItems(parsed.packages);
    var flags := if parsed.dryRun then [DryRunItem] else [];
    assert Items(parsed)[1..] == flags + specs;
    assert parsed.dryRun ==> (flags + specs)[1..] == specs;
    assert !parsed.dryRun ==> flags + specs == specs;
    SpecItemsMean(parsed.packages, Parsed([], parsed.reason, parsed.dryRun));
    assert [] + parsed.packages == parsed.packages;
  }

  // ---------------------------------------------------------------- what the script accepts

  /** The arguments are these items, written out. */
  ghost predicate Writes(items: seq<Item>, argv: seq<string>) {
    Print(items) == argv && forall i :: 0 <= i < |items| && items[i].SpecItem? ==> Expressible(items[i].spec)
  }

  /** The arguments are items that mean this and leave nothing out. */
  ghost predicate Says(argv: seq<string>, parsed: Parsed) {
    parsed.packages != [] && parsed.reason != "" && exists items :: Writes(items, argv) && Meaning(items, NOTHING) == parsed
  }

  lemma SplitAt(s: string, i: nat)
    requires i < |s|
    ensures s == s[..i] + [s[i]] + s[i + 1..]
  {
  }

  lemma PrintedInParts(spec: PackageSpec)
    ensures PrintSpec(spec) == spec.name + "@" + PrintVersions(spec)
  {
  }

  lemma VersionsPrintBack(versionPart: string, spec: PackageSpec)
    requires var arrow := IndexOf(versionPart, '>');
      if arrow == -1 then spec.version == versionPart && spec.rollbackVersion.None?
      else spec.version == versionPart[..arrow] && spec.rollbackVersion == Some(versionPart[arrow + 1..])
    ensures PrintVersions(spec) == versionPart
  {
    if IndexOf(versionPart, '>') != -1 {
      SplitAt(versionPart, IndexOf(versionPart, '>'));
    }
  }

  lemma SpecPrintsBack(arg: string)
    requires ParseSpec(arg).Ok?
    ensures PrintSpec(ParseSpec(arg).value) == arg
  {
    var at := LastIndexOf(arg, '@');
    SplitAt(arg, at);
    VersionsPrintBack(arg[at + 1..], ParseSpec(arg).value);
    PrintedInParts(ParseSpec(arg).value);
  }

  lemma {:induction false} ParsedIsWritten(argv: seq<string>, soFar: Parsed) returns (items: seq<Item>)
    requires ParseFrom(argv, soFar).Ok?
    ensures Writes(items, argv) && ParseFrom(argv, soFar) == Ok(Meaning(items, soFar))
    decreases |argv|
  {
    if argv == [] {
      items := [];
    } else if argv[0] == "--reason" {
      items := ParsedIsWritten(argv[2..], soFar.(reason := argv[1]));
      items := OneItemMore(ReasonItem(argv[1]), items, ["--reason", argv[1]], argv, soFar);
    } else if argv[0] == "--dry-run" {
      items := ParsedIsWritten(argv[1..], soFar.(dryRun := true));
      items := OneItemMore(DryRunItem, items, ["--dry-run"], argv, soFar);
    } else {
      var spec := ParseSpec(argv[0]).value;
      SpecIsExpressible(argv[0]);
      SpecPrintsBack(argv[0]);
      items := ParsedIsWritten(argv[1..], soFar.(packages := soFar.packages + [spec]));
      items := OneItemMore(SpecItem(spec), items, [argv[0]], argv, soFar);
    }
  }

  /** The items with one in front. */
  lemma OneItemMore(item: Item, rest: seq<Item>, written: seq<string>, argv: seq<string>, soFar: Parsed) returns (items: seq<Item>)
    requires item.SpecItem? ==> Expressible(item.spec)
    requires written == (match item case SpecItem(spec) => [PrintSpec(spec)] case ReasonItem(text) => ["--reason", text] case DryRunItem => ["--dry-run"])
    requires |written| <= |argv| && argv[..|written|] == written && Writes(rest, argv[|written|..])
    ensures Writes(items, argv) && items == [item] + rest
    ensures Meaning(items, soFar) == Meaning(rest, match item
      case SpecItem(spec) => soFar.(packages := soFar.packages + [spec])
      case ReasonItem(text) => soFar.(reason := text)
      case DryRunItem => soFar.(dryRun := true))
  {
    items := [item] + rest;
    assert items[0] == item && items[1..] == rest;
    assert argv == written + argv[|written|..];
  }

  /** What is accepted are exactly the written items, with a package and a reason among them. */
  lemma ParsesExactly(argv: seq<string>, parsed: Parsed)
    ensures ParseFrom(argv, NOTHING) == Ok(parsed) <==> Says(argv, parsed)
  {
    if ParseFrom(argv, NOTHING) == Ok(parsed) {
      ParsedIsExpressible(argv, NOTHING);
      var items := ParsedIsWritten(argv, NOTHING);
    }
    if Says(argv, parsed) {
      var items :| Writes(items, argv) && Meaning(items, NOTHING) == parsed;
      ParseUndoesPrint(items, NOTHING);
    }
  }

  lemma Regroup<T>(a: seq<T>, b: seq<T>, c: seq<T>)
    ensures a + b + c == a + (b + c) && (a + b + c)[|a|..] == b + c
    ensures forall i :: 0 <= i < |a| ==> (a + b + c)[i] == a[i]
  {
  }

  lemma {:induction false} ReadsOn(items: seq<Item>, rest: seq<string>, soFar: Parsed)
    requires forall i :: 0 <= i < |items| && items[i].SpecItem? ==> Expressible(items[i].spec)
    ensures ParseFrom(Print(items) + rest, soFar) == ParseFrom(rest, Meaning(items, soFar))
  {
    if items == [] {
      assert Print(items) + rest == rest;
    } else {
      match items[0]
      case SpecItem(spec) =>
        ParseSpecUndoesPrint(spec);
        PrintedIsNoFlag(spec);
        NotAKnownFlag(PrintSpec(spec));
        Regroup([PrintSpec(spec)], Print(items[1..]), rest);
        ReadsOn(items[1..], rest, soFar.(packages := soFar.packages + [spec]));
      case ReasonItem(text) =>
        Regroup(["--reason", text], Print(items[1..]), rest);
        ReadsOn(items[1..], rest, soFar.(reason := text));
      case DryRunItem =>
        Regroup(["--dry-run"], Print(items[1..]), rest);
        assert "--dry-run"[2] == 'd' && "--reason"[2] == 'r';
        ReadsOn(items[1..], rest, soFar.(dryRun := true));
    }
  }

  lemma FirstArgument(arg: string, rest: seq<string>, soFar: Parsed)
    ensures "--" <= arg && arg != "--reason" && arg != "--dry-run" ==> ParseFrom([arg] + rest, soFar) == Err(UnknownFlag(arg))
    ensures arg == "--reason" && rest == [] ==> ParseFrom([arg] + rest, soFar) == Err(ReasonNeedsValue)
    ensures !IsFlag(arg) && ParseSpec(arg).Err? ==> ParseFrom([arg] + rest, soFar) == Err(InvalidSpecifier(arg))
  {
    assert ([arg] + rest)[0] == arg;
    if !IsFlag(arg) {
      NotAKnownFlag(arg);
    }
  }

  lemma NoSpecifier(arg: string)
    requires !IsFlag(arg) && forall spec :: Expressible(spec) ==> PrintSpec(spec) != arg
    ensures ParseSpec(arg).Err?
  {
    if ParseSpec(arg).Ok? {
      SpecIsExpressible(arg);
      SpecPrintsBack(arg);
    }
  }

  /** Otherwise the first argument that continues no item is named: an unknown flag, a missing
      value, or what is no specifier. */
  lemma FirstErrorReported(items: seq<Item>, arg: string, rest: seq<string>)
    requires forall i :: 0 <= i < |items| && items[i].SpecItem? ==> Expressible(items[i].spec)
    ensures "--" <= arg && arg != "--reason" && arg != "--dry-run" ==>
      ParseFrom(Print(items) + ([arg] + rest), NOTHING) == Err(UnknownFlag(arg))
    ensures arg == "--reason" && rest == [] ==>
      ParseFrom(Print(items) + ([arg] + rest), NOTHING) == Err(ReasonNeedsValue)
    ensures !("--" <= arg) && (forall spec :: Expressible(spec) ==> PrintSpec(spec) != arg) ==>
      ParseFrom(Print(items) + ([arg] + rest), NOTHING) == Err(InvalidSpecifier(arg))
  {
    ReadsOn(items, [arg] + rest, NOTHING);
    FirstArgument(arg, rest, Meaning(items, NOTHING));
    if !IsFlag(arg) && forall spec :: Expressible(spec) ==> PrintSpec(spec) != arg {
      NoSpecifier(arg);
    }
  }
}
