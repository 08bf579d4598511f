/**
 * The domains of Orange/tests/test_domain.py and the outcomes that test file
 * expects, stated as lemmas about the Schema model.
 */
module SchemaExamples {
  import opened Wrappers
  import opened Schema
  import Text

  const Age := Variable("AGE", Continuous, None)
  const Gender := Variable("Gender", Discrete(["M", "F"]), None)
  const IncomeA := Variable("incomeA", Continuous, None)
  const Income := Variable("income", Continuous, None)
  const Education := Variable("education", Discrete(["GS", "HS", "C"]), None)
  const Ssn := Variable("SSN", StringKind, None)
  const Race := Variable("race", Discrete(["White", "Hypsanic", "African", "Other"]), None)
  /** `income.copy(compute_value=...)`: same name, a transformation attached. */
  const NewIncome := Variable("income", Continuous, Some(42))

  /** The domain `(age, gender, income)` with metas `(ssn, race)` used by the lookup tests. */
  const Lookups := Domain([Age, Gender, Income], [], [Ssn, Race])

  lemma InitRoles()
    ensures Make([Age, Gender, Income], Lone(Race), []) == Ok(Domain([Age, Gender, Income], [Race], []))
    ensures ClassVar(Domain([Age, Gender, Income], [Race], [])) == Some(Race)
    ensures Make([Age, Gender, Income], Many([Race]), []) == Make([Age, Gender, Income], Lone(Race), [])
    ensures Make([Age, Gender, Income], Absent, []) == Ok(Domain([Age, Gender, Income], [], []))
    ensures ClassVar(Domain([Age, Gender, Income], [Education, Race], [])) == None
    ensures Variables(Domain([Age, Gender, Income], [Education, Race], [])) == [Age, Gender, Income, Education, Race]
  {
  }

  /** The source domain of the construction tests. */
  const Source := Domain([Age, Gender, Income], [Education, Race], [])

  /** The first variable called `name` is at `i` when it is there and not before. */
  lemma FirstNamedAt(s: seq<Variable>, name: string, i: nat)
    requires i < |s| && s[i].name == name
    requires forall j :: 0 <= j < i ==> s[j].name != name
    ensures FirstNamed(s, name) == Some(i)
  {
    assert FirstNamed(s, name).Some?;
  }

  lemma ResolveCons(source: Domain, k: Key, rest: seq<Key>, v: Variable, vs: seq<Variable>)
    requires Lookup(source, k) == Ok(v) && ResolveAll(source, rest) == Ok(vs)
    ensures ResolveAll(source, [k] + rest) == Ok([v] + vs)
  {
    assert ([k] + rest)[1..] == rest;
  }

  lemma SourceLookups()
    ensures Lookup(Source, ByName("Gender")) == Ok(Gender)
    ensures Lookup(Source, ByIndex(0)) == Ok(Age)
    ensures Lookup(Source, ByVar(Income)) == Ok(Income)
    ensures Lookup(Source, ByName("income")) == Ok(Income)
  {
    var vars := Variables(Source);
    assert vars == [Age, Gender, Income, Education, Race];
    FirstNamedAt(vars, "Gender", 1);
    assert vars[1].name[0] != "income"[0];
    FirstNamedAt(vars, "income", 2);
  }

  lemma SourceKeysResolve()
    ensures ResolveAll(Source, [ByName("Gender"), ByIndex(0), ByVar(Income)]) == Ok([Gender, Age, Income])
  {
    SourceLookups();
    ResolveCons(Source, ByVar(Income), [], Income, []);
    assert [ByVar(Income)] + [] == [ByVar(Income)] && [Income] + [] == [Income];
    ResolveCons(Source, ByIndex(0), [ByVar(Income)], Age, [Income]);
    assert [ByIndex(0)] + [ByVar(Income)] == [ByIndex(0), ByVar(Income)] && [Age] + [Income] == [Age, Income];
    ResolveCons(Source, ByName("Gender"), [ByIndex(0), ByVar(Income)], Gender, [Age, Income]);
    assert [ByName("Gender")] + [ByIndex(0), ByVar(Income)] == [ByName("Gender"), ByIndex(0), ByVar(Income)];
    assert [Gender] + [Age, Income] == [Gender, Age, Income];
  }

  lemma FromSourceByKeys()
    ensures MakeFromSource([ByName("Gender"), ByIndex(0), ByVar(Income)], Absent, [], Source)
            == Ok(Domain([Gender, Age, Income], [], []))
  {
    SourceKeysResolve();
    assert AllPrimitive([Gender, Age, Income] + AsList<Variable>(Absent));
  }

  lemma SourceKeysWithClassResolve()
    ensures ResolveAll(Source, [ByName("Gender"), ByIndex(0)]) == Ok([Gender, Age])
    ensures ResolveArg(Source, Lone(ByName("income"))) == Ok(Lone(Income))
  {
    SourceLookups();
    ResolveCons(Source, ByIndex(0), [], Age, []);
    assert [ByIndex(0)] + [] == [ByIndex(0)] && [Age] + [] == [Age];
    ResolveCons(Source, ByName("Gender"), [ByIndex(0)], Gender, [Age]);
    assert [ByName("Gender")] + [ByIndex(0)] == [ByName("Gender"), ByIndex(0)] && [Gender] + [Age] == [Gender, Age];
  }

  lemma FromSourceWithClass()
    ensures MakeFromSource([ByName("Gender"), ByIndex(0)], Lone(ByName("income")), [], Source)
            == Ok(Domain([Gender, Age], [Income], []))
  {
    SourceKeysWithClassResolve();
    assert ResolveAll(Source, []) == Ok([]);
    assert [Gender, Age] + AsList(Lone(Income)) == [Gender, Age, Income];
    assert Make([Gender, Age], Lone(Income), []) == Ok(Domain([Gender, Age], [Income], []));
  }

  lemma InitFromSource()
    ensures MakeFromSource([ByName("Gender"), ByIndex(0), ByVar(Income)], Absent, [], Source).Ok?
    ensures Variables(MakeFromSource([ByName("Gender"), ByIndex(0), ByVar(Income)], Absent, [], Source).value)
            == [Gender, Age, Income]
    ensures MakeFromSource([ByName("Gender"), ByIndex(0)], Lone(ByName("income")), [], Source).Ok?
    ensures Variables(MakeFromSource([ByName("Gender"), ByIndex(0)], Lone(ByName("income")), [], Source).value)
            == [Gender, Age, Income]
  {
    FromSourceByKeys();
    FromSourceWithClass();
    assert Variables(Domain([Gender, Age], [Income], [])) == [Gender, Age, Income];
  }

  /** String variables are refused as attributes or class variables, also when taken from a source. */
  lemma WrongVarTypes()
    ensures Make([Age, Gender, Income], Lone(Ssn), []) == Err(TypeError)
    ensures Make([Age, Gender, Income, Ssn], Absent, []) == Err(TypeError)
    ensures Make([Ssn, Age, Gender, Income], Absent, []) == Err(TypeError)
    ensures MakeFromSource([ByIndex(-1)], Absent, [], Domain([Age, Gender], [], [Ssn])) == Err(TypeError)
  {
    assert !IsPrimitive(Ssn);
    assert ([Age, Gender, Income] + AsList(Lone(Ssn)))[3] == Ssn;
    assert ([Age, Gender, Income, Ssn] + AsList<Variable>(Absent))[3] == Ssn;
    assert ([Ssn, Age, Gender, Income] + AsList<Variable>(Absent))[0] == Ssn;
    var src := Domain([Age, Gender], [], [Ssn]);
    assert Lookup(src, ByIndex(-1)) == Ok(Ssn);
    var ra := ResolveAll(src, [ByIndex(-1)]);
    assert Contains(src, [ByIndex(-1)][0]);
    assert ra.Ok? && ra.value[0] == Ssn;
    assert ra.value == [Ssn];
    assert ([Ssn] + AsList<Variable>(Absent))[0] == Ssn;
  }

  lemma GetItemByName()
    ensures Lookup(Lookups, ByName("AGE")) == Ok(Age)
    ensures Lookup(Lookups, ByName("income")) == Ok(Income)
    ensures Lookup(Lookups, ByName("SSN")) == Ok(Ssn)
  {
    var vars := Variables(Lookups);
    assert vars == [Age, Gender, Income];
    FirstNamedAt(vars, "AGE", 0);
    assert vars[1].name[0] != "income"[0];
    FirstNamedAt(vars, "income", 2);
    assert forall j :: 0 <= j < |vars| ==> vars[j].name != "SSN" by {
      assert vars[0].name[0] != "SSN"[0] && vars[1].name[0] != "SSN"[0] && vars[2].name[0] != "SSN"[0];
    }
    FirstNamedAt(Lookups.metas, "SSN", 0);
  }

  lemma GetItemByVarOrIndex()
    ensures Lookup(Lookups, ByVar(Age)) == Ok(Age)
    ensures Lookup(Lookups, ByIndex(0)) == Ok(Age)
    ensures Lookup(Lookups, ByVar(Income)) == Ok(Income)
    ensures Lookup(Lookups, ByIndex(2)) == Ok(Income)
    ensures Lookup(Lookups, ByVar(Ssn)) == Ok(Ssn)
    ensures Lookup(Lookups, ByIndex(-1)) == Ok(Ssn)
    ensures Lookup(Lookups, ByIndex(-2)) == Ok(Race)
  {
    assert Variables(Lookups) == [Age, Gender, Income];
  }

  lemma GetItemMissing()
    ensures Lookup(Lookups, ByIndex(3)) == Err(KeyError)
    ensures Lookup(Lookups, ByIndex(-3)) == Err(KeyError)
    ensures Lookup(Lookups, ByVar(IncomeA)) == Err(KeyError)
    ensures Lookup(Lookups, ByName("no_such_thing")) == Err(KeyError)
  {
    assert Variables(Lookups) == [Age, Gender, Income];
    assert IncomeA !in Variables(Lookups);
  }

  lemma GetItem()
    ensures Lookup(Lookups, ByVar(Age)) == Ok(Age)
    ensures Lookup(Lookups, ByName("AGE")) == Ok(Age)
    ensures Lookup(Lookups, ByIndex(0)) == Ok(Age)
    ensures Lookup(Lookups, ByVar(Income)) == Ok(Income)
    ensures Lookup(Lookups, ByName("income")) == Ok(Income)
    ensures Lookup(Lookups, ByIndex(2)) == Ok(Income)
    ensures Lookup(Lookups, ByVar(Ssn)) == Ok(Ssn)
    ensures Lookup(Lookups, ByName("SSN")) == Ok(Ssn)
    ensures Lookup(Lookups, ByIndex(-1)) == Ok(Ssn)
    ensures Lookup(Lookups, ByIndex(-2)) == Ok(Race)
    ensures Lookup(Lookups, ByIndex(3)) == Err(KeyError)
    ensures Lookup(Lookups, ByIndex(-3)) == Err(KeyError)
    ensures Lookup(Lookups, ByVar(IncomeA)) == Err(KeyError)
    ensures Lookup(Lookups, ByName("no_such_thing")) == Err(KeyError)
  {
    GetItemByName();
    GetItemByVarOrIndex();
    GetItemMissing();
  }

  lemma IndexOfVariables()
    ensures Index(Lookups, ByVar(Age)) == Ok(0)
    ensures Index(Lookups, ByName("AGE")) == Ok(0)
    ensures Index(Lookups, ByIndex(0)) == Ok(0)
    ensures Index(Lookups, ByVar(Income)) == Ok(2)
    ensures Index(Lookups, ByName("income")) == Ok(2)
    ensures Index(Lookups, ByIndex(2)) == Ok(2)
  {
    var vars := Variables(Lookups);
    assert vars == [Age, Gender, Income];
    FirstNamedAt(vars, "AGE", 0);
    assert vars[1].name[0] != "income"[0];
    FirstNamedAt(vars, "income", 2);
  }

  lemma IndexOfMetas()
    ensures Index(Lookups, ByVar(Ssn)) == Ok(-1)
    ensures Index(Lookups, ByName("SSN")) == Ok(-1)
    ensures Index(Lookups, ByIndex(-1)) == Ok(-1)
    ensures Index(Lookups, ByIndex(-2)) == Ok(-2)
  {
    assert Variables(Lookups) == [Age, Gender, Income];
    assert Ssn !in Variables(Lookups);
    assert FirstNamed(Variables(Lookups), "SSN") == None;
    FirstNamedAt(Lookups.metas, "SSN", 0);
  }

  lemma IndexOfMissing()
    ensures Index(Lookups, ByIndex(3)) == Err(ValueError)
    ensures Index(Lookups, ByIndex(-3)) == Err(ValueError)
    ensures Index(Lookups, ByVar(IncomeA)) == Err(ValueError)
    ensures Index(Lookups, ByName("no_such_thing")) == Err(ValueError)
  {
    assert Variables(Lookups) == [Age, Gender, Income];
    IndexAgreesWithLookup(Lookups, ByVar(IncomeA));
    IndexAgreesWithLookup(Lookups, ByName("no_such_thing"));
    GetItem();
  }

  lemma IndexOf()
    ensures Index(Lookups, ByVar(Age)) == Ok(0)
    ensures Index(Lookups, ByName("AGE")) == Ok(0)
    ensures Index(Lookups, ByIndex(0)) == Ok(0)
    ensures Index(Lookups, ByVar(Income)) == Ok(2)
    ensures Index(Lookups, ByName("income")) == Ok(2)
    ensures Index(Lookups, ByIndex(2)) == Ok(2)
    ensures Index(Lookups, ByVar(Ssn)) == Ok(-1)
    ensures Index(Lookups, ByName("SSN")) == Ok(-1)
    ensures Index(Lookups, ByIndex(-1)) == Ok(-1)
    ensures Index(Lookups, ByIndex(-2)) == Ok(-2)
    ensures Index(Lookups, ByIndex(3)) == Err(ValueError)
    ensures Index(Lookups, ByIndex(-3)) == Err(ValueError)
    ensures Index(Lookups, ByVar(IncomeA)) == Err(ValueError)
    ensures Index(Lookups, ByName("no_such_thing")) == Err(ValueError)
  {
    IndexOfVariables();
    IndexOfMetas();
    IndexOfMissing();
  }

  lemma ContainsAndIterate()
    ensures var d := Domain([Age, Gender, Income], [], [Ssn]);
            Contains(d, ByName("AGE")) && Contains(d, ByVar(Age)) && Contains(d, ByIndex(0))
            && Contains(d, ByName("income")) && Contains(d, ByVar(Income)) && Contains(d, ByIndex(2))
            && Contains(d, ByName("SSN")) && Contains(d, ByVar(Ssn)) && Contains(d, ByIndex(-1))
            && !Contains(d, ByName("no_such_thing")) && !Contains(d, ByVar(Race))
            && !Contains(d, ByIndex(3)) && !Contains(d, ByIndex(-2))
    ensures Iterate(Domain([Age, Gender, Income], [], [Ssn])) == [Age, Gender, Income]
    ensures Iterate(Domain([], [], [Ssn])) == []
  {
    var d := Domain([Age, Gender, Income], [], [Ssn]);
    assert Variables(d) == [Age, Gender, Income];
    assert Race !in Variables(d);
  }

  lemma Slices()
    ensures var d := Domain([Age, Gender, Income, Race], [], [Ssn, Race]);
            Slice(d, 0, Some(2)) == [Age, Gender] && Slice(d, 1, Some(3)) == [Gender, Income]
            && Slice(d, 2, None) == [Income, Race]
  {
  }

  /** Negative bounds count from the end, and bounds past either end are clamped. */
  lemma SlicesFromTheEnd()
    ensures var d := Domain([Age, Gender, Income, Race], [], [Ssn, Race]);
            Slice(d, -1, None) == [Race] && Slice(d, 0, Some(-2)) == [Age, Gender]
            && Slice(d, -10, Some(10)) == [Age, Gender, Income, Race] && Slice(d, 3, Some(1)) == []
  {
    var d := Domain([Age, Gender, Income, Race], [], [Ssn, Race]);
    assert Variables(d) == [Age, Gender, Income, Race];
    assert Variables(d)[3..4] == [Race];
    assert Variables(d)[0..2] == [Age, Gender];
    assert Variables(d)[0..4] == Variables(d);
  }

  lemma RenderingWithoutMetas()
    ensures Render(Domain([], [], [])) == "[]"
    ensures Render(Domain([Age], [], [])) == "[AGE]"
    ensures Render(Domain([], [Age], [])) == "[ | AGE]"
    ensures Render(Domain([Gender], [Age], [])) == "[Gender | AGE]"
  {
    assert Names([Age]) == ["AGE"];
    assert Names([Gender]) == ["Gender"];
  }

  lemma JoinGenderIncome()
    ensures Text.Join(Names([Gender, Income]), ", ") == "Gender, income"
  {
    assert Names([Gender, Income]) == ["Gender", "income"];
    assert Text.Join(["Gender", "income"], ", ") == "Gender" + ", " + Text.Join(["income"], ", ");
  }

  lemma JoinAgeIncome()
    ensures Text.Join(Names([Age, Income]), ", ") == "AGE, income"
  {
    assert Names([Age, Income]) == ["AGE", "income"];
    assert Text.Join(["AGE", "income"], ", ") == "AGE" + ", " + Text.Join(["income"], ", ");
  }

  lemma JoinSsnRace()
    ensures Text.Join(Names([Ssn, Race]), ", ") == "SSN, race"
  {
    assert Names([Ssn, Race]) == ["SSN", "race"];
    assert Text.Join(["SSN", "race"], ", ") == "SSN" + ", " + Text.Join(["race"], ", ");
  }

  /** `str(domain)` from the joined names of its three parts. */
  lemma RenderedAs(d: Domain, attrs: string, classes: string, metas: string)
    requires Text.Join(Names(d.attributes), ", ") == attrs
    requires |d.classVars| > 0 ==> Text.Join(Names(d.classVars), ", ") == classes
    requires |d.metas| > 0 ==> Text.Join(Names(d.metas), ", ") == metas
    ensures Render(d) == "[" + attrs + (if |d.classVars| > 0 then " | " + classes else "") + "]"
                         + (if |d.metas| > 0 then " {" + metas + "}" else "")
  {
  }

  /** The rendered strings put together from their parts, character by character. */
  lemma SpellingsWithoutMetas()
    ensures "[" + "Gender, income" + "" + "]" + "" == "[Gender, income]"
    ensures "[" + "Gender, income" + (" | " + "AGE") + "]" + "" == "[Gender, income | AGE]"
    ensures "[" + "Gender" + (" | " + "AGE, income") + "]" + "" == "[Gender | AGE, income]"
  {
  }

  lemma SpellingOneMeta()
    ensures "[" + "Gender" + (" | " + "AGE, income") + "]" + (" {" + "SSN" + "}") == "[Gender | AGE, income] {SSN}"
  {
  }

  lemma SpellingTwoMetas()
    ensures "[" + "Gender" + (" | " + "AGE, income") + "]" + (" {" + "SSN, race" + "}") == "[Gender | AGE, income] {SSN, race}"
  {
  }

  lemma RenderingTwoNames()
    ensures Render(Domain([Gender, Income], [], [])) == "[Gender, income]"
    ensures Render(Domain([Gender, Income], [Age], [])) == "[Gender, income | AGE]"
    ensures Render(Domain([Gender], [Age, Income], [])) == "[Gender | AGE, income]"
  {
    assert Names([Age]) == ["AGE"];
    assert Names([Gender]) == ["Gender"];
    JoinGenderIncome();
    JoinAgeIncome();
    RenderedAs(Domain([Gender, Income], [], []), "Gender, income", "", "");
    RenderedAs(Domain([Gender, Income], [Age], []), "Gender, income", "AGE", "");
    RenderedAs(Domain([Gender], [Age, Income], []), "Gender", "AGE, income", "");
    SpellingsWithoutMetas();
  }

  lemma RenderingOneMeta()
    ensures Render(Domain([Gender], [Age, Income], [Ssn])) == "[Gender | AGE, income] {SSN}"
  {
    assert Names([Gender]) == ["Gender"];
    assert Names([Ssn]) == ["SSN"];
    JoinAgeIncome();
    RenderedAs(Domain([Gender], [Age, Income], [Ssn]), "Gender", "AGE, income", "SSN");
    SpellingOneMeta();
  }

  lemma RenderingTwoMetas()
    ensures Render(Domain([Gender], [Age, Income], [Ssn, Race])) == "[Gender | AGE, income] {SSN, race}"
  {
    assert Names([Gender]) == ["Gender"];
    JoinAgeIncome();
    JoinSsnRace();
    RenderedAs(Domain([Gender], [Age, Income], [Ssn, Race]), "Gender", "AGE, income", "SSN, race");
    SpellingTwoMetas();
  }

  lemma RenderingMetasOnly()
    ensures Render(Domain([], [], [Ssn, Race])) == "[] {SSN, race}"
  {
    JoinSsnRace();
    RenderedAs(Domain([], [], [Ssn, Race]), "", "", "SSN, race");
  }

  lemma DiscreteAndContinuous()
    ensures !HasDiscreteAttributes(Domain([], [Age], []), false)
    ensures !HasDiscreteAttributes(Domain([], [Race], []), false)
    ensures HasDiscreteAttributes(Domain([Age, Race], [], []), false)
    ensures !HasDiscreteAttributes(Domain([], [Age], []), true)
    ensures HasDiscreteAttributes(Domain([], [Race], []), true)
    ensures HasDiscreteAttributes(Domain([Age], [Race], []), true)
    ensures !HasContinuousAttributes(Domain([], [Age], []), false)
    ensures HasContinuousAttributes(Domain([Race, Age], [], []), false)
    ensures HasContinuousAttributes(Domain([], [Age], []), true)
    ensures !HasContinuousAttributes(Domain([], [Race], []), true)
    ensures HasContinuousAttributes(Domain([Race], [Age], []), true)
  {
    assert Domain([Age, Race], [], []).attributes[1] == Race;
    assert Domain([Race, Age], [], []).attributes[1] == Age;
  }

  const D := Domain([Age, Gender, Income], [], [Ssn, Race])
  const E := Domain([Gender, Race], [], [Age, Gender, Ssn])
  const F := Domain([Gender], [Race, Income], [Age, Income, Ssn])
  const G := Domain([], [], [Age, Gender, Ssn])
  const H := Domain([Gender], [Race, NewIncome], [Age, NewIncome, Ssn])

  lemma ConversionDToE()
    ensures GetConversion(E, D) == Conversion(D, [FromColumn(1), FromColumn(-2)], [],
                                              [FromColumn(0), FromColumn(1), FromColumn(-1)])
  {
    assert Variables(D) == [Age, Gender, Income];
    assert Index(D, ByVar(Gender)) == Ok(1);
    assert Index(D, ByVar(Race)) == Ok(-2);
    assert Index(D, ByVar(Age)) == Ok(0);
    assert Index(D, ByVar(Ssn)) == Ok(-1);
  }

  lemma ConversionDToF()
    ensures GetConversion(F, D) == Conversion(D, [FromColumn(1)], [FromColumn(-2), FromColumn(2)],
                                              [FromColumn(0), FromColumn(2), FromColumn(-1)])
  {
    assert Variables(D) == [Age, Gender, Income];
    assert Index(D, ByVar(Gender)) == Ok(1);
    assert Index(D, ByVar(Race)) == Ok(-2);
    assert Index(D, ByVar(Income)) == Ok(2);
    assert Index(D, ByVar(Age)) == Ok(0);
    assert Index(D, ByVar(Ssn)) == Ok(-1);
  }

  lemma ConversionFToG()
    ensures GetConversion(G, F) == Conversion(F, [], [], [FromColumn(-1), FromColumn(0), FromColumn(-3)])
  {
    assert Variables(F) == [Gender, Race, Income];
    assert Index(F, ByVar(Age)) == Ok(-1);
    assert Index(F, ByVar(Gender)) == Ok(0);
    assert FirstIndexOf(F.metas, Ssn) == Some(2);
    assert Index(F, ByVar(Ssn)) == Ok(-3);
  }

  /** Where the variables of `H` are found in `G`. */
  lemma SourcesInG()
    ensures SourceOf(G, Gender) == FromColumn(-2) && SourceOf(G, Age) == FromColumn(-1)
    ensures SourceOf(G, Ssn) == FromColumn(-3)
    ensures SourceOf(G, Race) == NoSource && SourceOf(G, NewIncome) == Computed(42)
  {
    assert Variables(G) == [];
    assert Index(G, ByVar(Gender)) == Ok(-2);
    assert Race !in G.metas && NewIncome !in G.metas;
    assert Index(G, ByVar(Age)) == Ok(-1);
    assert FirstIndexOf(G.metas, Ssn) == Some(2);
    assert Index(G, ByVar(Ssn)) == Ok(-3);
  }

  lemma ConversionGToH()
    ensures GetConversion(H, G) == Conversion(G, [FromColumn(-2)], [NoSource, Computed(42)],
                                              [FromColumn(-1), Computed(42), FromColumn(-3)])
  {
    SourcesInG();
  }

  const Converting := Domain([Age, Income], [Race], [Gender, Education, Ssn])

  /** A row of values only: the converted values split by role, every meta unknown. */
  lemma ConvertsWithoutMetas(d: Domain, row: seq<Raw>, vals: seq<Val>)
    requires |row| == |Variables(d)|
    requires ConvertAll(Variables(d), row) == Ok(vals)
    ensures Convert(d, row) == Ok(ConvertedRow(vals[..|d.attributes|], vals[|d.attributes|..], seq(|d.metas|, _ => Unknown)))
  {
    assert row[..|Variables(d)|] == row;
  }

  /** A row that also holds the metas: those are converted as well. */
  lemma ConvertsWithMetas(d: Domain, row: seq<Raw>, vals: seq<Val>, ms: seq<Val>)
    requires |row| == |Variables(d)| + |d.metas| && |d.metas| > 0
    requires ConvertAll(Variables(d), row[..|Variables(d)|]) == Ok(vals)
    requires ConvertAll(d.metas, row[|Variables(d)|..]) == Ok(ms)
    ensures Convert(d, row) == Ok(ConvertedRow(vals[..|d.attributes|], vals[|d.attributes|..], ms))
  {
  }

  lemma ConvertingValues()
    ensures ConvertAll(Variables(Converting), [RNum(42.0), RNum(13.0), RStr("White")]) == Ok([Num(42.0), Num(13.0), Num(0.0)])
  {
    assert Variables(Converting) == [Age, Income, Race];
    assert ToVal(Race, RStr("White")) == Ok(Num(0.0));
    var c := ConvertAll([Age, Income, Race], [RNum(42.0), RNum(13.0), RStr("White")]);
    assert c.Ok?;
    assert c.value == [Num(42.0), Num(13.0), Num(0.0)];
  }

  lemma ConvertingMetas()
    ensures ConvertAll(Converting.metas, [RStr("M"), RStr("HS"), RStr("1234567")]) == Ok([Num(0.0), Num(1.0), Str("1234567")])
  {
    assert ToVal(Gender, RStr("M")) == Ok(Num(0.0));
    assert FirstString(["GS", "HS", "C"], "HS") == Some(1);
    assert ToVal(Education, RStr("HS")) == Ok(Num(1.0));
    var c := ConvertAll([Gender, Education, Ssn], [RStr("M"), RStr("HS"), RStr("1234567")]);
    assert c.Ok?;
    assert c.value == [Num(0.0), Num(1.0), Str("1234567")];
  }

  lemma RowConversionValuesOnly()
    ensures Convert(Converting, [RNum(42.0), RNum(13.0), RStr("White")])
            == Ok(ConvertedRow([Num(42.0), Num(13.0)], [Num(0.0)], [Unknown, Unknown, Unknown]))
  {
    var row := [RNum(42.0), RNum(13.0), RStr("White")];
    var vals := [Num(42.0), Num(13.0), Num(0.0)];
    assert |Variables(Converting)| == 3;
    assert vals[..2] == [Num(42.0), Num(13.0)] && vals[2..] == [Num(0.0)];
    ConvertingValues();
    ConvertsWithoutMetas(Converting, row, vals);
    assert seq(3, _ => Unknown) == [Unknown, Unknown, Unknown];
  }

  lemma RowConversionWithMetas()
    ensures Convert(Converting, [RNum(42.0), RNum(13.0), RStr("White"), RStr("M"), RStr("HS"), RStr("1234567")])
            == Ok(ConvertedRow([Num(42.0), Num(13.0)], [Num(0.0)], [Num(0.0), Num(1.0), Str("1234567")]))
  {
    var row := [RNum(42.0), RNum(13.0), RStr("White")];
    var metas := [RStr("M"), RStr("HS"), RStr("1234567")];
    var vals := [Num(42.0), Num(13.0), Num(0.0)];
    assert |Variables(Converting)| == 3;
    assert vals[..2] == [Num(42.0), Num(13.0)] && vals[2..] == [Num(0.0)];
    ConvertingValues();
    ConvertingMetas();
    var row2 := row + metas;
    assert row2[..3] == row && row2[3..] == metas;
    ConvertsWithMetas(Converting, row2, vals, [Num(0.0), Num(1.0), Str("1234567")]);
    assert row2 == [RNum(42.0), RNum(13.0), RStr("White"), RStr("M"), RStr("HS"), RStr("1234567")];
  }

  lemma RowConversion()
    ensures Convert(Converting, [RNum(42.0), RNum(13.0), RStr("White")])
            == Ok(ConvertedRow([Num(42.0), Num(13.0)], [Num(0.0)], [Unknown, Unknown, Unknown]))
    ensures Convert(Converting, [RNum(42.0), RNum(13.0), RStr("White"), RStr("M"), RStr("HS"), RStr("1234567")])
            == Ok(ConvertedRow([Num(42.0), Num(13.0)], [Num(0.0)], [Num(0.0), Num(1.0), Str("1234567")]))
  {
    RowConversionValuesOnly();
    RowConversionWithMetas();
  }

  lemma RowConversionSize()
    ensures Convert(Converting, [RNum(0.0), RNum(0.0)]) == Err(ValueError)
    ensures Convert(Converting, [RNum(0.0), RNum(0.0), RStr("White"), RStr("M")]) == Err(ValueError)
    ensures Convert(Converting, [RNum(0.0), RNum(0.0), RStr("White"), RStr("M"), RStr("C"), RStr("123"), RNum(0.0)])
            == Err(ValueError)
    ensures Convert(Domain([Age, Gender, Income], [Race], []), [RNum(0.0), RStr("M"), RNum(0.0)]) == Err(ValueError)
    ensures Convert(Domain([Age, Gender, Income], [Race], []), [RNum(0.0), RStr("M"), RNum(0.0), RStr("White"), RNum(0.0)])
            == Err(ValueError)
  {
  }

  /** Domains compare equal exactly when their three roles are equal. */
  lemma Equality()
    ensures var var1 := Variable("var1", Continuous, None);
            var d := Domain([], [], []);
            d.(attributes := [var1]) != d
            && d.(attributes := [var1], classVars := [var1]) != d.(attributes := [var1])
            && d.(attributes := [var1], classVars := [var1], metas := [var1])
               != d.(attributes := [var1], classVars := [var1])
  {
  }
}
