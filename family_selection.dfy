/**
 * Choosing the members of one family for a target platform: the candidates of
 * a family key, the platform pass, the hint-status pass, and the checks on
 * what remains.
 */
module FamilySelection {
  import opened Wrappers
  import opened Text
  import opened FontCatalog

  /** Same family, script, variant, weight and style; hint status and platform may differ. */
  predicate BasicallySame(a: Font, b: Font)
  {
    a.family == b.family && a.script == b.script && a.variant == b.variant &&
    a.weight == b.weight && a.style == b.style
  }

  /** The fonts of a key that may be members: not the UI variant, and a file ending in "tf". */
  function Candidates(fonts: seq<Font>, key: string): (r: set<Font>)
    ensures forall f :: f in r ==> f.key == key && f.variant != Some("UI") && EndsWith(f.filePath.name, "tf")
    ensures forall i :: 0 <= i < |fonts| ==>
      (fonts[i].key == key && fonts[i].variant != Some("UI") && EndsWith(fonts[i].filePath.name, "tf") ==> fonts[i] in r)
    ensures forall f :: f in r ==> f in fonts
  {
    set f | f in fonts && f.key == key && f.variant != Some("UI") && EndsWith(f.filePath.name, "tf")
  }

  // ---------------------------------------------------------------------------
  // A drop pass: every member marks some members for removal; all marked ones go.

  /** The members marked by the members in `done`. */
  function DropsFrom(marks: Font -> set<Font>, members: set<Font>, done: set<Font>): set<Font>
  {
    set alt | alt in members && exists f :: f in done && alt in marks(f)
  }

  lemma DropsFromStep(marks: Font -> set<Font>, members: set<Font>, done: set<Font>, f: Font)
    ensures DropsFrom(marks, members, done + {f}) == DropsFrom(marks, members, done) + (marks(f) * members)
  {
    forall alt | alt in DropsFrom(marks, members, done + {f})
      ensures alt in DropsFrom(marks, members, done) + (marks(f) * members)
    {
      var g :| g in done + {f} && alt in marks(g);
      if g != f {
        assert g in done;
      }
    }
  }

  /**
   * The loop of a drop pass: walk over the members, collect what each marks,
   * then remove all of it at once.
   */
  method DropPass(members: set<Font>, marks: Font -> set<Font>) returns (kept: set<Font>)
    ensures kept == members - DropsFrom(marks, members, members)
  {
    var toDrop: set<Font> := {};
    var todo := members;
    while todo != {}
      invariant todo <= members
      invariant toDrop == DropsFrom(marks, members, members - todo)
      decreases |todo|
    {
      var f :| f in todo;
      DropsFromStep(marks, members, members - todo, f);
      assert (members - todo) + {f} == members - (todo - {f});
      toDrop := toDrop + (marks(f) * members);
      todo := todo - {f};
    }
    assert members - todo == members;
    kept := members - toDrop;
  }

  // ---------------------------------------------------------------------------
  // The platform pass.

  /**
   * A member for the target platform marks its basically-the-same
   * alternatives with another platform; a member for another platform marks
   * itself.
   */
  function PlatformMarks(members: set<Font>, target: Platform): Font -> set<Font>
  {
    (f: Font) =>
      if f.platform == Some(target) then
        set alt | alt in members && BasicallySame(f, alt) && f.platform != alt.platform
      else if f.platform.Some? then {f}
      else {}
  }

  /** A member of the target platform that is basically the same as `f`. */
  predicate HasTargetTwin(members: set<Font>, target: Platform, f: Font)
  {
    exists g :: g in members && g.platform == Some(target) && BasicallySame(g, f)
  }

  /**
   * What survives the platform pass: every target-platform member, and every
   * platform-neutral member without a target-platform twin.
   */
  function PlatformPass(members: set<Font>, target: Platform): (r: set<Font>)
    ensures forall f :: f in r <==>
      f in members && (f.platform == Some(target) || (f.platform.None? && !HasTargetTwin(members, target, f)))
  {
    members - DropsFrom(PlatformMarks(members, target), members, members)
  }

  /** The pass only removes, never removes a target-platform member, and leaves no other platform. */
  lemma PlatformPassProperties(members: set<Font>, target: Platform)
    ensures PlatformPass(members, target) <= members
    ensures forall f :: f in members && f.platform == Some(target) ==> f in PlatformPass(members, target)
    ensures forall f :: f in PlatformPass(members, target) ==> f.platform.None? || f.platform == Some(target)
    ensures forall f, g :: f in PlatformPass(members, target) && g in PlatformPass(members, target) ==>
      (f.platform == Some(target) && BasicallySame(f, g) ==> g.platform == f.platform)
  {
    forall f, g | f in PlatformPass(members, target) && g in PlatformPass(members, target) &&
      f.platform == Some(target) && BasicallySame(f, g)
      ensures g.platform == f.platform
    {
      if g.platform.None? {
        assert HasTargetTwin(members, target, g);
      }
    }
  }

  // ---------------------------------------------------------------------------
  // The hint-status pass.

  /** Hinted fonts for the Windows and Linux packages, unhinted ones otherwise. */
  function DesiredHintStatus(target: Platform): (h: HintStatus)
    ensures h == Hinted <==> target == Windows || target == Linux
  {
    if target == Windows || target == Linux then Hinted else Unhinted
  }

  /** A member with the desired status marks its basically-the-same alternatives with the other status. */
  function HintMarks(members: set<Font>, desired: HintStatus): Font -> set<Font>
  {
    (f: Font) =>
      if f.hintStatus == desired then
        set alt | alt in members && BasicallySame(f, alt) && f.hintStatus != alt.hintStatus
      else {}
  }

  /** A member with the desired status that is basically the same as `f`. */
  predicate HasDesiredTwin(members: set<Font>, desired: HintStatus, f: Font)
  {
    exists g :: g in members && g.hintStatus == desired && BasicallySame(g, f)
  }

  /** What survives the hint pass: members with the desired status, and the others without such a twin. */
  function HintPass(members: set<Font>, desired: HintStatus): (r: set<Font>)
    ensures forall f :: f in r <==>
      f in members && (f.hintStatus == desired || !HasDesiredTwin(members, desired, f))
  {
    members - DropsFrom(HintMarks(members, desired), members, members)
  }

  /** The pass only removes, keeps every desired member, and leaves no undesired member beside a desired twin. */
  lemma HintPassProperties(members: set<Font>, desired: HintStatus)
    ensures HintPass(members, desired) <= members
    ensures forall f :: f in members && f.hintStatus == desired ==> f in HintPass(members, desired)
    ensures forall f, g :: f in HintPass(members, desired) && g in HintPass(members, desired) ==>
      (f.hintStatus != desired && BasicallySame(f, g) ==> g.hintStatus != desired)
  {
    forall f, g | f in HintPass(members, desired) && g in HintPass(members, desired) &&
      f.hintStatus != desired && BasicallySame(f, g)
      ensures g.hintStatus != desired
    {
      assert g in members && BasicallySame(g, f);
    }
  }

  // ---------------------------------------------------------------------------
  // The members of a family.

  /** The members with the default weight and upright style. */
  function Representatives(members: set<Font>): (r: set<Font>)
    ensures forall f :: f in r <==> f in members && f.weight == "Regular" && f.style.None?
  {
    set f | f in members && f.weight == "Regular" && f.style.None?
  }

  lemma {:induction false} SubsetCard<T>(a: set<T>, b: set<T>)
    requires a <= b
    ensures |a| <= |b|
  {
    if a != {} {
      var z :| z in a;
      SubsetCard(a - {z}, b - {z});
    }
  }

  /** The only element of a singleton set. */
  function TheElement<T>(s: set<T>): (x: T)
    requires |s| == 1
    ensures s == {x}
  {
    var x :| x in s;
    assert forall y :: y in s ==> y == x by {
      forall y | y in s
        ensures y == x
      {
        if y != x {
          assert {x, y} <= s && |{x, y}| == 2;
          SubsetCard({x, y}, s);
        }
      }
    }
    x
  }

  datatype Selection = Selection(members: set<Font>, representative: Font)

  datatype SelectionError = NotOneRepresentative(count: nat)

  /**
   * The two passes over the candidates of `key`, then the check that exactly
   * one member has the default weight and upright style.
   */
  function SelectMembers(fonts: seq<Font>, key: string, target: Platform): (r: Result<Selection, SelectionError>)
    ensures r.Ok? ==> r.value.representative in r.value.members
    ensures r.Ok? ==> r.value.representative.weight == "Regular" && r.value.representative.style.None?
    ensures r.Ok? ==> forall f :: f in r.value.members && f.weight == "Regular" && f.style.None? ==> f == r.value.representative
    ensures r.Ok? ==> r.value.members <= Candidates(fonts, key)
    ensures r.Ok? ==> r.value.members == HintPass(PlatformPass(Candidates(fonts, key), target), DesiredHintStatus(target))
    ensures r.Ok? ==> Representatives(r.value.members) == {r.value.representative}
    ensures r.Err? <==> |Representatives(HintPass(PlatformPass(Candidates(fonts, key), target), DesiredHintStatus(target)))| != 1
  {
    var members := HintPass(PlatformPass(Candidates(fonts, key), target), DesiredHintStatus(target));
    var reps := Representatives(members);
    if |reps| != 1 then Err(NotOneRepresentative(|reps|))
    else Ok(Selection(members, TheElement(reps)))
  }

  /** The selection the source makes, with its two loops. */
  method SelectMembersLoop(fonts: seq<Font>, key: string, target: Platform) returns (r: Result<Selection, SelectionError>)
    ensures r == SelectMembers(fonts, key, target)
  {
    var members := Candidates(fonts, key);
    members := DropPass(members, PlatformMarks(members, target));
    members := DropPass(members, HintMarks(members, DesiredHintStatus(target)));
    var reps := Representatives(members);
    if |reps| != 1 {
      return Err(NotOneRepresentative(|reps|));
    }
    var rep :| rep in reps;
    assert reps == {TheElement(reps)};
    return Ok(Selection(members, rep));
  }

  /** The member counts a complete family may have. */
  predicate ValidMemberCount(n: nat)
  {
    n in {1, 2, 4, 7}
  }

  /**
   * A candidate set with no platform-specific fonts and every font already of
   * the desired hint status passes both passes unchanged.
   */
  lemma UniformCandidatesSurvive(members: set<Font>, target: Platform)
    requires forall f :: f in members ==> f.platform.None? && f.hintStatus == DesiredHintStatus(target)
    ensures HintPass(PlatformPass(members, target), DesiredHintStatus(target)) == members
  {
  }

  /** Regular and Bold upright unhinted fonts of noto-sans-latn, selected for the "other" platform. */
  lemma NotoSansLatinForOther(regular: Font, bold: Font)
    requires regular.key == "noto-sans-latn" && bold.key == "noto-sans-latn"
    requires regular.weight == "Regular" && bold.weight == "Bold"
    requires regular.style.None? && bold.style.None?
    requires regular.variant.None? && bold.variant.None?
    requires regular.platform.None? && bold.platform.None?
    requires regular.hintStatus == Unhinted && bold.hintStatus == Unhinted
    requires EndsWith(regular.filePath.name, "tf") && EndsWith(bold.filePath.name, "tf")
    ensures DesiredHintStatus(Other) == Unhinted
    ensures SelectMembers([regular, bold], "noto-sans-latn", Other) == Ok(Selection({regular, bold}, regular))
    ensures ValidMemberCount(|{regular, bold}|)
  {
    var c := Candidates([regular, bold], "noto-sans-latn");
    assert c == {regular, bold};
    UniformCandidatesSurvive(c, Other);
    assert Representatives(c) == {regular};
  }
}
