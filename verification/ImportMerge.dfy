/** Merging the imports of a TypeScript file, one import line to a module. Lines are taken as parsed:
    multi-line imports already joined and the names of an import already split and trimmed. */
module ImportMerge {
  import opened Util

  /** A name inside the braces of a value import, written `n` or `type n`. */
  datatype Spec = Val(name: string) | Typ(name: string)

  datatype Line =
    | TypeImport(typeNames: seq<string>, mod: string)
    | ValueImport(specs: seq<Spec>, mod: string)
    | Other(text: string)

  const PLACEHOLDER := "__IMPORT_PLACEHOLDER__"

  predicate IsPlaceholder(line: Line) {
    line.Other? && PLACEHOLDER <= line.text
  }

  function PlaceholderFor(mod: string): (line: Line)
    ensures IsPlaceholder(line) && line.text[|PLACEHOLDER|..] == mod
  {
    Other(PLACEHOLDER + mod)
  }

  // ----- what a list of lines imports -----

  function Init(lines: seq<Line>): seq<Line>
    requires lines != []
  {
    lines[..|lines| - 1]
  }

  function Last(lines: seq<Line>): Line
    requires lines != []
  {
    lines[|lines| - 1]
  }

  function TypeNamesOf(line: Line, mod: string): seq<string> {
    if line.TypeImport? && line.mod == mod then line.typeNames else []
  }

  function SpecsOf(line: Line, mod: string): seq<Spec> {
    if line.ValueImport? && line.mod == mod then line.specs else []
  }

  function TypeNames(lines: seq<Line>, mod: string): seq<string> {
    if lines == [] then []
    else if Last(lines).TypeImport? && Last(lines).mod == mod then TypeNames(Init(lines), mod) + Last(lines).typeNames
    else TypeNames(Init(lines), mod)
  }

  function Specs(lines: seq<Line>, mod: string): seq<Spec> {
    if lines == [] then []
    else if Last(lines).ValueImport? && Last(lines).mod == mod then Specs(Init(lines), mod) + Last(lines).specs
    else Specs(Init(lines), mod)
  }

  /** The modules of the import lines, line by line. */
  function Modules(lines: seq<Line>): seq<string> {
    if lines == [] then []
    else if Last(lines).Other? then Modules(Init(lines))
    else Modules(Init(lines)) + [Last(lines).mod]
  }

  function AsTypes(names: seq<string>): seq<Spec> {
    if names == [] then [] else AsTypes(names[..|names| - 1]) + [Typ(names[|names| - 1])]
  }

  /** The one import line for a module. */
  function Print(typeNames: seq<string>, specs: seq<Spec>, mod: string): Line {
    if Unique(specs) != [] then ValueImport(Unique(specs) + AsTypes(Unique(typeNames)), mod)
    else TypeImport(Unique(typeNames), mod)
  }

  function PrintFor(all: seq<Line>, mod: string): Line {
    Print(TypeNames(all, mod), Specs(all, mod), mod)
  }

  /** The lines with every import replaced by a placeholder at its module's first occurrence. */
  function WithPlaceholders(lines: seq<Line>): seq<Line> {
    if lines == [] then []
    else if Last(lines).Other? then WithPlaceholders(Init(lines)) + [Last(lines)]
    else if Last(lines).mod in Modules(Init(lines)) then WithPlaceholders(Init(lines))
    else WithPlaceholders(Init(lines)) + [PlaceholderFor(Last(lines).mod)]
  }

  /** A placeholder for a module that nothing imports has no entry to print. */
  function Render(all: seq<Line>, line: Line): Option<Line> {
    if !IsPlaceholder(line) then Some(line)
    else if line.text[|PLACEHOLDER|..] in Modules(all) then Some(PrintFor(all, line.text[|PLACEHOLDER|..]))
    else None
  }

  function RenderAll(all: seq<Line>, lines: seq<Line>): Option<seq<Line>> {
    if lines == [] then Some([])
    else
      match RenderAll(all, Init(lines))
      case None => None
      case Some(done) =>
        var last := Render(all, Last(lines));
        if last.None? then None else Some(done + [last.value])
  }

  /** No line of the file itself looks like a placeholder. */
  predicate Plain(lines: seq<Line>) {
    forall line :: line in lines ==> !IsPlaceholder(line)
  }

  /** What merging is to mean: each module's one import stands where the module first occurs. */
  function MergedFor(all: seq<Line>, lines: seq<Line>): seq<Line> {
    if lines == [] then []
    else if Last(lines).Other? then MergedFor(all, Init(lines)) + [Last(lines)]
    else if Last(lines).mod in Modules(Init(lines)) then MergedFor(all, Init(lines))
    else MergedFor(all, Init(lines)) + [PrintFor(all, Last(lines).mod)]
  }

  function Merged(lines: seq<Line>): seq<Line> {
    MergedFor(lines, lines)
  }

  lemma RenderSnoc(all: seq<Line>, lines: seq<Line>, line: Line)
    ensures RenderAll(all, lines + [line]) ==
            if RenderAll(all, lines).None? || Render(all, line).None? then None
            else Some(RenderAll(all, lines).value + [Render(all, line).value])
  {
    assert Init(lines + [line]) == lines;
  }

  lemma {:induction false} PlainRenders(all: seq<Line>, lines: seq<Line>)
    requires Plain(lines) && forall m :: m in Modules(lines) ==> m in Modules(all)
    ensures RenderAll(all, WithPlaceholders(lines)) == Some(MergedFor(all, lines))
    decreases |lines|
  {
    if lines != [] {
      var init, last := Init(lines), Last(lines);
      assert last in lines && forall l :: l in init ==> l in lines;
      PlainRenders(all, init);
      assert last.Other? || last.mod in Modules(lines);
      if last.Other? {
        RenderSnoc(all, WithPlaceholders(init), last);
      } else if last.mod !in Modules(init) {
        RenderSnoc(all, WithPlaceholders(init), PlaceholderFor(last.mod));
      }
    }
  }

  // ----- the merged lines -----

  /** Where lines stand: other lines by their text, imports by their module. */
  datatype Place = Text(text: string) | ImportOf(mod: string)

  function PlaceOf(line: Line): Place {
    if line.Other? then Text(line.text) else ImportOf(line.mod)
  }

  function Places(lines: seq<Line>): seq<Place> {
    if lines == [] then [] else Places(Init(lines)) + [PlaceOf(Last(lines))]
  }

  /** The places with all but the first import of each module struck out. */
  function FirstImports(places: seq<Place>): seq<Place> {
    if places == [] then []
    else
      var init, last := places[..|places| - 1], places[|places| - 1];
      if last.ImportOf? && last in init then FirstImports(init) else FirstImports(init) + [last]
  }

  lemma {:induction false} PlacesAndModules(lines: seq<Line>, mod: string)
    ensures ImportOf(mod) in Places(lines) <==> mod in Modules(lines)
  {
    if lines != [] { PlacesAndModules(Init(lines), mod); }
  }

  lemma PlacesSnoc(lines: seq<Line>, line: Line)
    ensures Places(lines + [line]) == Places(lines) + [PlaceOf(line)]
    ensures Modules(lines + [line]) == if line.Other? then Modules(lines) else Modules(lines) + [line.mod]
  {
    assert Init(lines + [line]) == lines;
  }

  lemma {:induction false} NotImported(lines: seq<Line>, mod: string)
    requires mod !in Modules(lines)
    ensures TypeNames(lines, mod) == [] && Specs(lines, mod) == []
  {
    if lines != [] { NotImported(Init(lines), mod); }
  }

  lemma NamesSnoc(lines: seq<Line>, line: Line, mod: string)
    ensures line.Other? || line.mod != mod ==>
              TypeNames(lines + [line], mod) == TypeNames(lines, mod) && Specs(lines + [line], mod) == Specs(lines, mod)
    ensures mod !in Modules(lines) ==>
              TypeNames(lines + [line], mod) == TypeNamesOf(line, mod) && Specs(lines + [line], mod) == SpecsOf(line, mod)
  {
    assert Init(lines + [line]) == lines;
    if mod !in Modules(lines) { NotImported(lines, mod); }
  }

  lemma {:induction false} MergedPlaces(all: seq<Line>, lines: seq<Line>)
    ensures Places(MergedFor(all, lines)) == FirstImports(Places(lines))
    decreases |lines|
  {
    if lines != [] {
      var init, last := Init(lines), Last(lines);
      MergedPlaces(all, init);
      var places := Places(init);
      assert Places(lines) == places + [PlaceOf(last)];
      assert (places + [PlaceOf(last)])[..|places + [PlaceOf(last)]| - 1] == places;
      if last.Other? {
        PlacesSnoc(MergedFor(all, init), last);
      } else {
        PlacesAndModules(init, last.mod);
        PlacesSnoc(MergedFor(all, init), PrintFor(all, last.mod));
      }
    }
  }

  lemma {:induction false} MergedModules(all: seq<Line>, lines: seq<Line>)
    ensures Modules(MergedFor(all, lines)) == Unique(Modules(lines))
    decreases |lines|
  {
    if lines != [] {
      var init, last := Init(lines), Last(lines);
      MergedModules(all, init);
      if last.Other? {
        PlacesSnoc(MergedFor(all, init), last);
      } else {
        UniqueMeaning(Modules(init));
        assert (Modules(init) + [last.mod])[..|Modules(init)|] == Modules(init);
        PlacesSnoc(MergedFor(all, init), PrintFor(all, last.mod));
      }
    }
  }

  /** Everything but repeated imports stays where it was, and each module that was imported has exactly
      one import, where its first one stood. */
  lemma OneImportPerModule(lines: seq<Line>)
    ensures Places(Merged(lines)) == FirstImports(Places(lines))
    ensures Modules(Merged(lines)) == Unique(Modules(lines)) && Distinct(Modules(Merged(lines)))
  {
    MergedPlaces(lines, lines);
    MergedModules(lines, lines);
    UniqueMeaning(Modules(lines));
  }

  /** What the merged lines import from a module is what its one line says. */
  lemma {:induction false} MergedNames(all: seq<Line>, lines: seq<Line>, mod: string)
    ensures mod in Modules(lines) ==>
              && TypeNames(MergedFor(all, lines), mod) == TypeNamesOf(PrintFor(all, mod), mod)
              && Specs(MergedFor(all, lines), mod) == SpecsOf(PrintFor(all, mod), mod)
    ensures mod !in Modules(lines) ==>
              TypeNames(MergedFor(all, lines), mod) == [] && Specs(MergedFor(all, lines), mod) == []
    decreases |lines|
  {
    if lines != [] {
      var init, last := Init(lines), Last(lines);
      MergedNames(all, init, mod);
      var done := MergedFor(all, init);
      MergedModules(all, init);
      UniqueMeaning(Modules(init));
      NamesSnoc(done, if last.Other? then last else PrintFor(all, last.mod), mod);
    }
  }

  // ----- bindings -----

  ghost predicate ImportsValue(lines: seq<Line>, mod: string, name: string) {
    Val(name) in Specs(lines, mod)
  }

  ghost predicate ImportsType(lines: seq<Line>, mod: string, name: string) {
    name in TypeNames(lines, mod) || Typ(name) in Specs(lines, mod)
  }

  lemma {:induction false} AsTypesMeaning(names: seq<string>, spec: Spec)
    ensures spec in AsTypes(names) <==> spec.Typ? && spec.name in names
  {
    if names != [] {
      AsTypesMeaning(names[..|names| - 1], spec);
      assert names == names[..|names| - 1] + [names[|names| - 1]];
    }
  }

  /** Merging keeps what the file imports, as values and as types, from every module. */
  lemma BindingsAreKept(lines: seq<Line>, mod: string, name: string)
    ensures ImportsValue(Merged(lines), mod, name) <==> ImportsValue(lines, mod, name)
    ensures ImportsType(Merged(lines), mod, name) <==> ImportsType(lines, mod, name)
  {
    MergedNames(lines, lines, mod);
    if mod in Modules(lines) {
      UniqueMeaning(Specs(lines, mod));
      UniqueMeaning(TypeNames(lines, mod));
      AsTypesMeaning(Unique(TypeNames(lines, mod)), Val(name));
      AsTypesMeaning(Unique(TypeNames(lines, mod)), Typ(name));
      PrintKeeps(TypeNames(lines, mod), Specs(lines, mod), mod, name);
    } else {
      NotImported(lines, mod);
    }
  }

  lemma PrintKeeps(typeNames: seq<string>, specs: seq<Spec>, mod: string, name: string)
    ensures var line := Print(typeNames, specs, mod);
            && (Val(name) in SpecsOf(line, mod) <==> Val(name) in specs)
            && (name in TypeNamesOf(line, mod) || Typ(name) in SpecsOf(line, mod)
                <==> name in typeNames || Typ(name) in specs)
  {
    UniqueMeaning(specs);
    UniqueMeaning(typeNames);
    AsTypesMeaning(Unique(typeNames), Val(name));
    AsTypesMeaning(Unique(typeNames), Typ(name));
  }

  // ----- the shape of each line -----

  /** What a module is imported for, over the lines in order. */
  lemma {:induction false} NamesConcat(a: seq<Line>, b: seq<Line>, mod: string)
    ensures TypeNames(a + b, mod) == TypeNames(a, mod) + TypeNames(b, mod)
    ensures Specs(a + b, mod) == Specs(a, mod) + Specs(b, mod)
    decreases |b|
  {
    if b == [] {
      assert a + b == a;
    } else {
      assert Init(a + b) == a + Init(b) && Last(a + b) == Last(b);
      NamesConcat(a, Init(b), mod);
      ConcatAssoc(TypeNames(a, mod), TypeNames(Init(b), mod), TypeNamesOf(Last(b), mod));
      ConcatAssoc(Specs(a, mod), Specs(Init(b), mod), SpecsOf(Last(b), mod));
    }
  }

  lemma NamesOfOne(line: Line, mod: string)
    ensures TypeNames([line], mod) == if line.TypeImport? && line.mod == mod then line.typeNames else []
    ensures Specs([line], mod) == if line.ValueImport? && line.mod == mod then line.specs else []
  {
    assert Init([line]) == [];
  }

  lemma {:induction false} NoSpecs(lines: seq<Line>, mod: string)
    ensures Specs(lines, mod) == [] <==> forall l :: l in lines && l.ValueImport? && l.mod == mod ==> l.specs == []
  {
    if lines != [] {
      NoSpecs(Init(lines), mod);
      assert lines == Init(lines) + [Last(lines)];
    }
  }

  /** `specs` are values, then types written `type n`: those of `vals` and `names`, in the order in which
      they first occur there. */
  ghost predicate ValuesThenTypes(specs: seq<Spec>, vals: seq<Spec>, names: seq<string>) {
    exists k: nat, types: seq<string> :: ThenTypes(specs, k, types, vals, names)
  }

  ghost predicate ThenTypes(specs: seq<Spec>, k: nat, types: seq<string>, vals: seq<Spec>, names: seq<string>) {
    && |specs| == k + |types| && FirstSeen(specs[..k], vals) && FirstSeen(types, names)
    && forall i :: 0 <= i < |types| ==> specs[k + i] == Typ(types[i])
  }

  /** The one line for a module is a type import exactly when no value import of it names anything, and
      it names everything in order of first occurrence, values before types. */
  lemma LineForModule(lines: seq<Line>, line: Line)
    requires line in Merged(lines) && !line.Other?
    ensures line.TypeImport? <==> forall l :: l in lines && l.ValueImport? && l.mod == line.mod ==> l.specs == []
    ensures line.TypeImport? ==> FirstSeen(line.typeNames, TypeNames(lines, line.mod))
    ensures line.ValueImport? ==> ValuesThenTypes(line.specs, Specs(lines, line.mod), TypeNames(lines, line.mod))
  {
    MergedArePrinted(lines, lines);
    assert line == PrintFor(lines, line.mod);
    var vals, names := Specs(lines, line.mod), TypeNames(lines, line.mod);
    NoSpecs(lines, line.mod);
    UniqueFirstSeen(vals);
    UniqueFirstSeen(names);
    assert vals != [] ==> vals[0] in Unique(vals);
    if line.ValueImport? {
      var k := |Unique(vals)|;
      AsTypesDistinct(Unique(names));
      assert line.specs[..k] == Unique(vals);
      assert ThenTypes(line.specs, k, Unique(names), vals, names);
    }
  }

  /** An import that is left as it is: no name twice, and a value import names something. */
  ghost predicate Tidy(line: Line) {
    match line
    case TypeImport(names, _) => Distinct(names)
    case ValueImport(specs, _) => specs != [] && Distinct(specs)
    case Other(_) => true
  }

  lemma TidyPrintsSame(line: Line)
    requires !line.Other?
    ensures Print(TypeNamesOf(line, line.mod), SpecsOf(line, line.mod), line.mod) == line <==> Tidy(line)
  {
    match line
    case TypeImport(names, _) =>
      UniqueMeaning(names);
      if Distinct(names) { UniqueOfDistinct(names); }
    case ValueImport(specs, mod) =>
      if specs != [] { SameAgain(specs, mod); }
    case Other(_) =>
  }

  /** The only import of a module says all there is. */
  lemma {:induction false} OnlyImport(lines: seq<Line>, i: nat)
    requires Distinct(Modules(lines)) && i < |lines| && !lines[i].Other?
    ensures TypeNames(lines, lines[i].mod) == TypeNamesOf(lines[i], lines[i].mod)
    ensures Specs(lines, lines[i].mod) == SpecsOf(lines[i], lines[i].mod)
  {
    DistinctInit(lines);
    var init, last := Init(lines), Last(lines);
    assert lines == init + [last];
    NamesSnoc(init, last, lines[i].mod);
    if i < |init| {
      OnlyImport(init, i);
      LineHasModule(init, i);
    }
  }

  /** A file comes back unchanged exactly when it imports each module once, names nothing twice in an
      import, and has no empty value import. */
  lemma UnchangedIffTidy(lines: seq<Line>)
    ensures Merged(lines) == lines <==> Distinct(Modules(lines)) && forall line :: line in lines ==> Tidy(line)
  {
    OneImportPerModule(lines);
    if Distinct(Modules(lines)) {
      FixedWhenPrinted(lines, lines);
      forall i | 0 <= i < |lines| && !lines[i].Other?
        ensures lines[i] == PrintFor(lines, lines[i].mod) <==> Tidy(lines[i])
      {
        OnlyImport(lines, i);
        TidyPrintsSame(lines[i]);
      }
    }
  }

  // ----- a second pass -----

  /** Some name is imported from `mod` both by a type import and as `type name` in a value import. */
  ghost predicate Clash(lines: seq<Line>, mod: string) {
    exists name :: name in TypeNames(lines, mod) && Typ(name) in Specs(lines, mod)
  }

  lemma {:induction false} AsTypesDistinct(names: seq<string>)
    requires Distinct(names)
    ensures Distinct(AsTypes(names)) && |AsTypes(names)| == |names|
    ensures forall i :: 0 <= i < |names| ==> AsTypes(names)[i] == Typ(names[i])
  {
    if names != [] { AsTypesDistinct(names[..|names| - 1]); }
  }

  ghost predicate Apart<T>(a: seq<T>, b: seq<T>) {
    forall x :: x in a ==> x !in b
  }

  lemma DistinctConcat<T>(a: seq<T>, b: seq<T>)
    requires Distinct(a) && Distinct(b)
    ensures Distinct(a + b) <==> Apart(a, b)
  {
    if x :| x in a && x in b {
      var i, j :| 0 <= i < |a| && a[i] == x && 0 <= j < |b| && b[j] == x;
      assert (a + b)[i] == (a + b)[|a| + j];
    } else {
      forall i, j | 0 <= i < j < |a + b| ensures (a + b)[i] != (a + b)[j] {
        if i < |a| <= j {
          assert a[i] in a && b[j - |a|] in b;
        }
      }
    }
  }

  /** A printed line is printed the same again exactly when its module has no clash. */
  lemma PrintAgain(lines: seq<Line>, mod: string)
    ensures var line := PrintFor(lines, mod);
            Print(TypeNamesOf(line, mod), SpecsOf(line, mod), mod) == line <==> !Clash(lines, mod)
  {
    var ut, uv := Unique(TypeNames(lines, mod)), Unique(Specs(lines, mod));
    UniqueMeaning(TypeNames(lines, mod));
    UniqueMeaning(Specs(lines, mod));
    if uv == [] {
      UniqueOfDistinct(ut);
    } else {
      AsTypesDistinct(ut);
      DistinctConcat(uv, AsTypes(ut));
      ClashMeaning(lines, mod);
      SameAgain(uv + AsTypes(ut), mod);
    }
  }

  lemma SameAgain(specs: seq<Spec>, mod: string)
    requires specs != []
    ensures Print([], specs, mod) == ValueImport(specs, mod) <==> Distinct(specs)
  {
    UniqueMeaning(specs);
    assert specs[0] in specs;
    assert Unique(specs) + [] == Unique(specs);
    if Distinct(specs) { UniqueOfDistinct(specs); }
  }

  lemma ClashMeaning(lines: seq<Line>, mod: string)
    ensures Clash(lines, mod) <==> !Apart(Unique(Specs(lines, mod)), AsTypes(Unique(TypeNames(lines, mod))))
  {
    if Clash(lines, mod) {
      ClashOverlaps(lines, mod);
    } else if !Apart(Unique(Specs(lines, mod)), AsTypes(Unique(TypeNames(lines, mod)))) {
      OverlapClashes(lines, mod);
    }
  }

  lemma ClashOverlaps(lines: seq<Line>, mod: string)
    requires Clash(lines, mod)
    ensures !Apart(Unique(Specs(lines, mod)), AsTypes(Unique(TypeNames(lines, mod))))
  {
    var name :| name in TypeNames(lines, mod) && Typ(name) in Specs(lines, mod);
    InBoth(lines, mod, Typ(name));
  }

  lemma OverlapClashes(lines: seq<Line>, mod: string)
    requires !Apart(Unique(Specs(lines, mod)), AsTypes(Unique(TypeNames(lines, mod))))
    ensures Clash(lines, mod)
  {
    var spec :| spec in Unique(Specs(lines, mod)) && spec in AsTypes(Unique(TypeNames(lines, mod)));
    InBoth(lines, mod, spec);
  }

  lemma InBoth(lines: seq<Line>, mod: string, spec: Spec)
    ensures spec in Unique(Specs(lines, mod)) <==> spec in Specs(lines, mod)
    ensures spec in AsTypes(Unique(TypeNames(lines, mod))) <==> spec.Typ? && spec.name in TypeNames(lines, mod)
  {
    UniqueMeaning(Specs(lines, mod));
    UniqueMeaning(TypeNames(lines, mod));
    AsTypesMeaning(Unique(TypeNames(lines, mod)), spec);
  }

  /** In the merged lines each import is the printed line of its module. */
  ghost predicate ImportsPrinted(all: seq<Line>, lines: seq<Line>) {
    forall i :: 0 <= i < |lines| && !lines[i].Other? ==> lines[i] == PrintFor(all, lines[i].mod)
  }

  lemma {:induction false} MergedArePrinted(all: seq<Line>, lines: seq<Line>)
    ensures ImportsPrinted(all, MergedFor(all, lines))
    decreases |lines|
  {
    if lines != [] { MergedArePrinted(all, Init(lines)); }
  }

  /** With one import to a module, merging `lines` changes nothing exactly if each is as printed. */
  lemma {:induction false} FixedWhenPrinted(all: seq<Line>, lines: seq<Line>)
    requires Distinct(Modules(lines))
    ensures MergedFor(all, lines) == lines <==> ImportsPrinted(all, lines)
    ensures |MergedFor(all, lines)| == |lines|
    decreases |lines|
  {
    if lines != [] {
      var init, last := Init(lines), Last(lines);
      assert lines == init + [last];
      DistinctInit(lines);
      FixedWhenPrinted(all, init);
      assert ImportsPrinted(all, lines) ==> ImportsPrinted(all, init) by {
        assert forall i :: 0 <= i < |init| ==> lines[i] == init[i];
      }
      var done := MergedFor(all, lines);
      assert done[..|init|] == MergedFor(all, init) && done[|init|] == if last.Other? then last else PrintFor(all, last.mod);
      assert lines[..|init|] == init;
    }
  }

  lemma DistinctInit(lines: seq<Line>)
    requires lines != [] && Distinct(Modules(lines))
    ensures Distinct(Modules(Init(lines)))
    ensures !Last(lines).Other? ==> Last(lines).mod !in Modules(Init(lines))
  {
    var ms, ms' := Modules(lines), Modules(Init(lines));
    assert ms'== ms[..|ms'|];
    if !Last(lines).Other? { assert ms[|ms'|] == Last(lines).mod; }
  }

  /** A second pass changes nothing if and only if no name is imported from one module both in a type
      import and as `type name` in a value import. */
  lemma SecondPass(lines: seq<Line>)
    ensures Merged(Merged(lines)) == Merged(lines) <==> forall mod :: mod in Modules(lines) ==> !Clash(lines, mod)
  {
    var out := Merged(lines);
    OneImportPerModule(lines);
    UniqueMeaning(Modules(lines));
    MergedArePrinted(lines, lines);
    FixedWhenPrinted(out, out);
    PrintedAlike(lines, out);
    forall mod | mod in Modules(lines)
      ensures PrintFor(out, mod) == PrintFor(lines, mod) <==> !Clash(lines, mod)
    {
      MergedNames(lines, lines, mod);
      PrintAgain(lines, mod);
    }
  }

  /** Lines printed for `lines` are as printed for themselves if each module prints the same for both. */
  lemma PrintedAlike(lines: seq<Line>, out: seq<Line>)
    requires ImportsPrinted(lines, out)
    ensures ImportsPrinted(out, out) <==> forall mod :: mod in Modules(out) ==> PrintFor(out, mod) == PrintFor(lines, mod)
  {
    if ImportsPrinted(out, out) {
      forall mod | mod in Modules(out) ensures PrintFor(out, mod) == PrintFor(lines, mod) {
        ModuleHasLine(out, mod);
      }
    }
    forall i | 0 <= i < |out| && !out[i].Other? ensures out[i].mod in Modules(out) {
      LineHasModule(out, i);
    }
  }

  lemma {:induction false} ModuleHasLine(lines: seq<Line>, mod: string)
    requires mod in Modules(lines)
    ensures exists i :: 0 <= i < |lines| && !lines[i].Other? && lines[i].mod == mod
  {
    if !Last(lines).Other? && Last(lines).mod == mod {
      assert lines[|lines| - 1].mod == mod;
    } else {
      ModuleHasLine(Init(lines), mod);
      var i :| 0 <= i < |Init(lines)| && !Init(lines)[i].Other? && Init(lines)[i].mod == mod;
      assert lines[i] == Init(lines)[i];
    }
  }

  lemma {:induction false} LineHasModule(lines: seq<Line>, i: nat)
    requires i < |lines| && !lines[i].Other?
    ensures lines[i].mod in Modules(lines)
  {
    if i < |lines| - 1 { LineHasModule(Init(lines), i); }
  }

  /** A third pass never changes anything. */
  lemma ThirdPass(lines: seq<Line>)
    ensures var twice := Merged(Merged(lines)); Merged(twice) == twice
  {
    var once := Merged(lines);
    forall mod | mod in Modules(once) ensures !Clash(once, mod) {
      OneImportPerModule(lines);
      UniqueMeaning(Modules(lines));
      MergedNames(lines, lines, mod);
    }
    SecondPass(once);
  }

  // ----- the pass itself -----

  /** The pass fails exactly when a line of the file itself looks like a placeholder for a module that
      the file does not import. */
  lemma {:induction false} FailsOnStrayPlaceholder(all: seq<Line>, lines: seq<Line>)
    requires forall m :: m in Modules(lines) ==> m in Modules(all)
    ensures RenderAll(all, WithPlaceholders(lines)).None?
            <==> exists line :: line in lines && IsPlaceholder(line) && line.text[|PLACEHOLDER|..] !in Modules(all)
    decreases |lines|
  {
    if lines != [] {
      var init, last := Init(lines), Last(lines);
      assert lines == init + [last];
      FailsOnStrayPlaceholder(all, init);
      if last.Other? {
        RenderSnoc(all, WithPlaceholders(init), last);
      } else if last.mod !in Modules(init) {
        assert last.mod in Modules(lines);
        RenderSnoc(all, WithPlaceholders(init), PlaceholderFor(last.mod));
      }
    }
  }

  datatype Entry = Entry(typeNames: seq<string>, valueNames: seq<Spec>)

  function AddNames(e: Entry, line: Line): Entry {
    match line
    case TypeImport(names, _) => e.(typeNames := e.typeNames + names)
    case ValueImport(specs, _) => e.(valueNames := e.valueNames + specs)
    case Other(_) => e
  }

  ghost predicate EntriesOf(entries: map<string, Entry>, lines: seq<Line>) {
    && (forall m :: m in entries <==> m in Modules(lines))
    && (forall m :: m in entries ==> EntryOf(entries[m], lines, m))
  }

  ghost predicate EntryOf(e: Entry, lines: seq<Line>, mod: string) {
    e.typeNames == TypeNames(lines, mod) && e.valueNames == Specs(lines, mod)
  }

  lemma EntriesStep(entries: map<string, Entry>, entries': map<string, Entry>, lines: seq<Line>, line: Line)
    requires EntriesOf(entries, lines)
    requires line.Other? ==> entries' == entries
    requires !line.Other? ==>
               entries' == entries[line.mod :=
                 AddNames(if line.mod in entries then entries[line.mod] else Entry([], []), line)]
    ensures EntriesOf(entries', lines + [line])
  {
    assert Init(lines + [line]) == lines;
    forall m | m in entries' ensures EntryOf(entries'[m], lines + [line], m) {
      if m !in Modules(lines) { NotImported(lines, m); }
    }
  }

  lemma PlaceholdersSnoc(lines: seq<Line>, line: Line)
    ensures WithPlaceholders(lines + [line]) ==
            if line.Other? then WithPlaceholders(lines) + [line]
            else if line.mod in Modules(lines) then WithPlaceholders(lines)
            else WithPlaceholders(lines) + [PlaceholderFor(line.mod)]
  {
    assert Init(lines + [line]) == lines;
  }

  /** The first loop: the entries of every module, and the lines with placeholders. */
  method CollectImports(lines: seq<Line>) returns (importsByModule: map<string, Entry>, otherLines: seq<Line>)
    ensures EntriesOf(importsByModule, lines) && otherLines == WithPlaceholders(lines)
  {
    importsByModule, otherLines := map[], [];
    var i := 0;
    while i < |lines|
      invariant 0 <= i <= |lines|
      invariant EntriesOf(importsByModule, lines[..i]) && otherLines == WithPlaceholders(lines[..i])
    {
      assert lines[..i + 1] == lines[..i] + [lines[i]];
      importsByModule, otherLines := CollectLine(lines[..i], lines[i], importsByModule, otherLines);
      i := i + 1;
    }
    assert lines[..i] == lines;
  }

  method CollectLine(ghost lines: seq<Line>, line: Line, entries: map<string, Entry>, otherLines: seq<Line>)
    returns (importsByModule: map<string, Entry>, others: seq<Line>)
    requires EntriesOf(entries, lines) && otherLines == WithPlaceholders(lines)
    ensures EntriesOf(importsByModule, lines + [line]) && others == WithPlaceholders(lines + [line])
  {
    PlaceholdersSnoc(lines, line);
    importsByModule, others := entries, otherLines;
    if line.Other? {
      others := others + [line];
    } else {
      var entry := Entry([], []);
      if line.mod in entries {
        entry := entries[line.mod];
      } else {
        others := others + [PlaceholderFor(line.mod)];
      }
      entry := AddNames(entry, line);
      importsByModule := importsByModule[line.mod := entry];
    }
    EntriesStep(entries, importsByModule, lines, line);
  }

  method MergeDuplicateImports(lines: seq<Line>) returns (result: Option<seq<Line>>)
    ensures result.None? <==>
              exists line :: line in lines && IsPlaceholder(line) && line.text[|PLACEHOLDER|..] !in Modules(lines)
    ensures (exists line :: line in lines && line.Other? && "__IMPORT_PLACEHOLDER__" <= line.text) || result.Some?
    ensures result == RenderAll(lines, WithPlaceholders(lines))
    ensures Plain(lines) ==> result == Some(Merged(lines))
  {
    var importsByModule, otherLines := CollectImports(lines);
    FailsOnStrayPlaceholder(lines, lines);
    if Plain(lines) { PlainRenders(lines, lines); }
    result := RenderLines(lines, importsByModule, otherLines);
  }

  method RenderLines(ghost lines: seq<Line>, entries: map<string, Entry>, otherLines: seq<Line>)
    returns (result: Option<seq<Line>>)
    requires EntriesOf(entries, lines)
    ensures result == RenderAll(lines, otherLines)
  {
    var done: seq<Line> := [];
    var i := 0;
    while i < |otherLines|
      invariant 0 <= i <= |otherLines| && RenderAll(lines, otherLines[..i]) == Some(done)
    {
      var line := otherLines[i];
      assert otherLines[..i + 1] == otherLines[..i] + [line];
      RenderSnoc(lines, otherLines[..i], line);
      if IsPlaceholder(line) {
        var mod := line.text[|PLACEHOLDER|..];
        if mod !in entries {
          StaysNone(lines, otherLines, i + 1);
          return None;
        }
        assert EntryOf(entries[mod], lines, mod);
        line := Print(entries[mod].typeNames, entries[mod].valueNames, mod);
      }
      done := done + [line];
      i := i + 1;
    }
    assert otherLines[..i] == otherLines;
    result := Some(done);
  }

  lemma {:induction false} StaysNone(all: seq<Line>, lines: seq<Line>, k: nat)
    requires k <= |lines| && RenderAll(all, lines[..k]).None?
    ensures RenderAll(all, lines).None?
    decreases |lines|
  {
    if k == |lines| {
      assert lines[..k] == lines;
    } else {
      assert Init(lines)[..k] == lines[..k];
      StaysNone(all, Init(lines), k);
    }
  }
}
