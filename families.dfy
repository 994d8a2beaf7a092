/**
 * The family objects of one target platform: for every family key, the
 * selected members, the display name, the package and the checks on the
 * result; then the comprehensive package of all selected fonts.
 *
 * The family name stored in a font binary is an input: `nameOf` gives it for a
 * font file.
 */
module Families {
  import opened Wrappers
  import opened Text
  import opened FontCatalog
  import opened FamilySelection
  import opened Packages
  import opened Css

  /** `s.rsplit(' ', 1)[0]`: everything before the last space, or all of `s`. */
  function BeforeLastSpace(s: string): (r: string)
    ensures ' ' in s ==> |r| < |s| && s[..|r|] == r && s[|r|] == ' ' && ' ' !in s[|r| + 1..]
    ensures ' ' !in s ==> r == s
  {
    match LastIndexOf(s, ' ')
    case Some(i) => s[..i]
    case None => s
  }

  /** The display name: the binary's family name without a trailing " Regular" word. */
  function DisplayName(raw: string): (r: string)
    ensures !EndsWith(raw, "Regular") ==> r == raw
    ensures EndsWith(raw, "Regular") && ' ' !in raw ==> r == raw
    ensures EndsWith(raw, "Regular") && ' ' in raw ==> |r| < |raw| && raw[..|r| + 1] == r + " " && ' ' !in raw[|r| + 1..]
  {
    if EndsWith(raw, "Regular") then
      var r := BeforeLastSpace(raw);
      assert ' ' in raw ==> raw[..|r| + 1] == raw[..|r|] + [raw[|r|]];
      r
    else raw
  }

  /** A family name whose last word is "Regular" loses exactly that word. */
  lemma RegularWordDropped(family: string)
    ensures DisplayName(family + " Regular") == family
  {
    var s := family + " Regular";
    assert s[|s| - 7..] == "Regular";
    var i := LastIndexOf(s, ' ');
    assert s[|family|] == ' ';
    assert i.Some?;
    if i.value < |family| {
      assert s[i.value + 1..][|family| - i.value - 1] == ' ';
    }
    assert s[..|family|] == family;
  }

  /** Every member has a CSS weight and a CSS style, as the CSS file and the font list need. */
  predicate Stylable(members: set<Font>)
  {
    forall f :: f in members ==> CssWeight(f.weight).Ok? && CssStyle(f.style).Ok?
  }

  datatype FamilyRecord = FamilyRecord(
    name: string,
    pkg: string,
    category: Option<string>,
    members: set<Font>,
    representative: Font)

  datatype FamilyError =
    | SelectionFailed(selection: SelectionError)
    | PackageFailed(package: PackageError)
    | UnstylableMember
    | BadMemberCount(count: nat)

  datatype FamilyStep = FamilyStep(record: FamilyRecord, cache: ContentsCache)

  /**
   * One iteration of the loop over family keys: select the members, derive
   * the display name, build the package, then check the styles and the
   * member count.
   */
  function CreateFamily(cache: ContentsCache, fonts: seq<Font>, key: string, target: Platform,
                        nameOf: FilePath -> string): (r: Result<FamilyStep, FamilyError>)
    ensures r.Ok? ==> ValidMemberCount(|r.value.record.members|) && Stylable(r.value.record.members)
    ensures r.Ok? ==> (SelectMembers(fonts, key, target) ==
      Ok(Selection(r.value.record.members, r.value.record.representative)))
    ensures r.Ok? ==> r.value.record.name == DisplayName(nameOf(r.value.record.representative.filePath))
    ensures r.Ok? ==> (CreateZip(cache, RemoveChar(r.value.record.name, ' '), target, r.value.record.members) ==
      Ok(Package(r.value.record.pkg, r.value.cache)))
    ensures r.Ok? ==> r.value.record.category == CssGenericFamily(r.value.record.representative.family)
    ensures SelectMembers(fonts, key, target).Err? ==> r == Err(SelectionFailed(SelectMembers(fonts, key, target).error))
    ensures r.Ok? <==> (SelectMembers(fonts, key, target).Ok? &&
      var sel := SelectMembers(fonts, key, target).value;
      CreateZip(cache, RemoveChar(DisplayName(nameOf(sel.representative.filePath)), ' '), target, sel.members).Ok? &&
      Stylable(sel.members) && ValidMemberCount(|sel.members|))
  {
    match SelectMembers(fonts, key, target)
    case Err(e) => Err(SelectionFailed(e))
    case Ok(sel) =>
      var name := DisplayName(nameOf(sel.representative.filePath));
      match CreateZip(cache, RemoveChar(name, ' '), target, sel.members)
      case Err(e) => Err(PackageFailed(e))
      case Ok(p) =>
        if !Stylable(sel.members) then Err(UnstylableMember)
        else if !ValidMemberCount(|sel.members|) then Err(BadMemberCount(|sel.members|))
        else Ok(FamilyStep(FamilyRecord(name, p.basename, CssGenericFamily(sel.representative.family),
                                        sel.members, sel.representative), p.cache))
  }

  /** Creating a family again, on the cache the first run left, gives the same record and cache. */
  lemma CreateFamilyIdempotent(cache: ContentsCache, fonts: seq<Font>, key: string, target: Platform,
                               nameOf: FilePath -> string)
    requires CreateFamily(cache, fonts, key, target, nameOf).Ok?
    ensures var s := CreateFamily(cache, fonts, key, target, nameOf).value;
      CreateFamily(s.cache, fonts, key, target, nameOf) == Ok(s)
  {
    var s := CreateFamily(cache, fonts, key, target, nameOf).value;
    CreateZipIdempotent(cache, RemoveChar(s.record.name, ' '), target, s.record.members);
  }

  datatype FamiliesState = FamiliesState(records: map<string, FamilyRecord>, files: set<Font>, cache: ContentsCache)

  /** The loop over the family keys in iteration order; the first error aborts it. */
  function CreateFamilies(st: FamiliesState, fonts: seq<Font>, keys: seq<string>, target: Platform,
                          nameOf: FilePath -> string): Result<FamiliesState, FamilyError>
    decreases |keys|
  {
    if keys == [] then Ok(st)
    else match CreateFamily(st.cache, fonts, keys[0], target, nameOf)
      case Err(e) => Err(e)
      case Ok(s) =>
        CreateFamilies(FamiliesState(st.records[keys[0] := s.record], st.files + s.record.members, s.cache),
                       fonts, keys[1..], target, nameOf)
  }

  /** The members of all records. */
  function AllMembers(records: map<string, FamilyRecord>): set<Font>
  {
    set k, f | k in records && f in records[k].members :: f
  }

  lemma AllMembersAdd(records: map<string, FamilyRecord>, key: string, rec: FamilyRecord)
    requires key !in records
    ensures AllMembers(records[key := rec]) == AllMembers(records) + rec.members
  {
    var m := records[key := rec];
    forall f | f in AllMembers(m)
      ensures f in AllMembers(records) + rec.members
    {
      var k :| k in m && f in m[k].members;
      if k != key {
        assert k in records && f in records[k].members;
      }
    }
    forall f | f in AllMembers(records) + rec.members
      ensures f in AllMembers(m)
    {
      if f in rec.members {
        assert key in m && f in m[key].members;
      } else {
        var k :| k in records && f in records[k].members;
        assert k in m && f in m[k].members;
      }
    }
  }

  /** The checks a family record passed: member count, styles, and its representative. */
  predicate RecordChecked(rec: FamilyRecord)
  {
    ValidMemberCount(|rec.members|) && Stylable(rec.members) && rec.representative in rec.members
  }

  /** Every record is checked, the files are exactly the members, and no two packages share contents. */
  predicate FamiliesInvariant(st: FamiliesState)
  {
    (forall k :: k in st.records ==> RecordChecked(st.records[k])) &&
    st.files == AllMembers(st.records) &&
    Injective(st.cache)
  }

  /** Adding one checked family record under a new key keeps the invariant. */
  lemma AddFamilyKeepsInvariant(st: FamiliesState, key: string, s: FamilyStep)
    requires FamiliesInvariant(st) && key !in st.records
    requires RecordChecked(s.record) && Injective(s.cache)
    ensures FamiliesInvariant(FamiliesState(st.records[key := s.record], st.files + s.record.members, s.cache))
  {
    AllMembersAdd(st.records, key, s.record);
  }

  /** No key occurs twice. */
  predicate NoRepeats(keys: seq<string>)
  {
    keys == [] || (keys[0] !in keys[1..] && NoRepeats(keys[1..]))
  }

  /**
   * Over distinct family keys (the source walks a set of keys), every record
   * the loop creates is checked, and the files are exactly the union of the
   * members.
   */
  lemma {:induction false} CreateFamiliesKeepsInvariant(st: FamiliesState, fonts: seq<Font>, keys: seq<string>,
                                                        target: Platform, nameOf: FilePath -> string)
    requires FamiliesInvariant(st)
    requires forall k :: k in keys ==> k !in st.records
    requires NoRepeats(keys)
    ensures CreateFamilies(st, fonts, keys, target, nameOf).Ok? ==>
      FamiliesInvariant(CreateFamilies(st, fonts, keys, target, nameOf).value)
    decreases |keys|
  {
    if keys != [] {
      var r := CreateFamily(st.cache, fonts, keys[0], target, nameOf);
      if r.Ok? {
        var s := r.value;
        CreateZipKeepsInjective(st.cache, RemoveChar(s.record.name, ' '), target, s.record.members);
        AddFamilyKeepsInvariant(st, keys[0], s);
        var st' := FamiliesState(st.records[keys[0] := s.record], st.files + s.record.members, s.cache);
        assert forall k :: k in keys[1..] ==> k in keys && k != keys[0];
        CreateFamiliesKeepsInvariant(st', fonts, keys[1..], target, nameOf);
      }
    }
  }

  /** A successful loop has a record for every key and no other. */
  lemma {:induction false} CreateFamiliesKeys(st: FamiliesState, fonts: seq<Font>, keys: seq<string>,
                                              target: Platform, nameOf: FilePath -> string)
    ensures CreateFamilies(st, fonts, keys, target, nameOf).Ok? ==>
      forall k :: k in CreateFamilies(st, fonts, keys, target, nameOf).value.records <==> k in st.records || k in keys
    decreases |keys|
  {
    if keys != [] {
      var r := CreateFamily(st.cache, fonts, keys[0], target, nameOf);
      if r.Ok? {
        var s := r.value;
        var st' := FamiliesState(st.records[keys[0] := s.record], st.files + s.record.members, s.cache);
        CreateFamiliesKeys(st', fonts, keys[1..], target, nameOf);
        assert forall k :: k in keys <==> k == keys[0] || k in keys[1..];
      }
    }
  }

  /**
   * `create_families_object` followed by the comprehensive package named
   * "Noto" holding every selected font. `keys` are the distinct keys of the
   * fonts, in the order the key set is iterated.
   */
  method CreateFamiliesObject(packages: PackageCache, fonts: seq<Font>, keys: seq<string>, target: Platform,
                              nameOf: FilePath -> string)
    returns (r: Result<(map<string, FamilyRecord>, set<Font>), FamilyError>)
    requires packages.Valid()
    requires NoRepeats(keys)
    requires forall k :: k in keys <==> exists i :: 0 <= i < |fonts| && fonts[i].key == k
    modifies packages
    ensures packages.Valid()
    ensures r.Ok? ==> forall k :: k in r.value.0 <==> exists i :: 0 <= i < |fonts| && fonts[i].key == k
    ensures r.Ok? ==> (forall k :: k in r.value.0 ==> RecordChecked(r.value.0[k])) && r.value.1 == AllMembers(r.value.0)
    ensures match CreateFamilies(FamiliesState(map[], {}, old(packages.contents)), fonts, keys, target, nameOf)
      case Ok(st) => r == Ok((st.records, st.files)) && packages.contents == st.cache
      case Err(e) => r == Err(e)
  {
    var records: map<string, FamilyRecord> := map[];
    var files: set<Font> := {};
    ghost var start := FamiliesState(map[], {}, packages.contents);
    CreateFamiliesKeepsInvariant(start, fonts, keys, target, nameOf);
    CreateFamiliesKeys(start, fonts, keys, target, nameOf);
    for i := 0 to |keys|
      invariant packages.Valid()
      invariant CreateFamilies(FamiliesState(records, files, packages.contents), fonts, keys[i..], target, nameOf) ==
                CreateFamilies(start, fonts, keys, target, nameOf)
    {
      assert keys[i..][0] == keys[i] && keys[i..][1..] == keys[i + 1..];
      ghost var spec := CreateFamily(packages.contents, fonts, keys[i], target, nameOf);
      var sel := SelectMembersLoop(fonts, keys[i], target);
      if sel.Err? {
        return Err(SelectionFailed(sel.error));
      }
      var members := sel.value.members;
      var rep := sel.value.representative;
      var name := DisplayName(nameOf(rep.filePath));
      var pkg := packages.BuildPackage(RemoveChar(name, ' '), target, members);
      if pkg.Err? {
        return Err(PackageFailed(pkg.error));
      }
      if !Stylable(members) {
        return Err(UnstylableMember);
      }
      if !ValidMemberCount(|members|) {
        return Err(BadMemberCount(|members|));
      }
      var record := FamilyRecord(name, pkg.value, CssGenericFamily(rep.family), members, rep);
      assert spec == Ok(FamilyStep(record, packages.contents));
      records := records[keys[i] := record];
      files := files + members;
    }
    assert CreateFamilies(start, fonts, keys, target, nameOf) == Ok(FamiliesState(records, files, packages.contents));
    return Ok((records, files));
  }

  /** `create_package_object`: the comprehensive package of all selected fonts. */
  method CreatePackageObject(packages: PackageCache, files: set<Font>, target: Platform) returns (r: Result<string, PackageError>)
    requires packages.Valid()
    modifies packages
    ensures packages.Valid()
    ensures match CreateZip(old(packages.contents), "Noto", target, files)
      case Ok(p) => r == Ok(p.basename) && packages.contents == p.cache
      case Err(e) => r == Err(e)
  {
    r := packages.BuildPackage("Noto", target, files);
  }
}
