/**
 * The select-field choice lists: programmes, classes and course levels.
 */
module Helpers {

  import opened Wrappers
  import opened Strings

  // ===========================================================================
  // Programme choices
  // ===========================================================================

  /** The certificate programmes, in the order the list is written. */
  const CertificateProgrammes: seq<string> := [
    "Cyber Security",
    "Early Childhood Education",
    "Dispensing Technician II & III",
    "Diagnostic Medical Sonography",
    "Medical Laboratory Technology",
    "Dispensing Assistant",
    "Health Information Management",
    "Optical Technician"]

  /** The diploma programmes, in the order the list is written. */
  const DiplomaProgrammes: seq<string> := [
    "Early Childhood Education",
    "Midwifery",
    "Ophthalmic Dispensing",
    "Medical Laboratory Technology",
    "HND Dispensing Technology",
    "Health Information Management",
    "Diploma in Early Childhood Education"]

  /** Each name in a list paired with itself, the (value, label) shape of a select field. */
  function SelfPairs(names: seq<string>): (r: seq<(string, string)>)
    ensures |r| == |names|
    ensures forall i :: 0 <= i < |r| ==> r[i] == (names[i], names[i])
  {
    seq(|names|, i requires 0 <= i < |names| => (names[i], names[i]))
  }

  /**
   * `get_programme_choices`: every programme of either list is offered,
   * nothing else is, each offer pairs a name with itself, and the names are
   * in strictly ascending Python string order, so none is offered twice.
   */
  function ProgrammeChoices(): (r: seq<(string, string)>)
    ensures forall i :: 0 <= i < |r| ==> r[i].0 == r[i].1
    ensures forall p :: (p, p) in r <==> p in CertificateProgrammes || p in DiplomaProgrammes
    ensures forall i, j :: 0 <= i < j < |r| ==> Less(r[i].0, r[j].0)
    ensures forall i, j :: 0 <= i < j < |r| ==> r[i] != r[j]
  {
    var names := SortedDistinct(CertificateProgrammes + DiplomaProgrammes);
    var r := SelfPairs(names);
    assert forall p :: (p, p) in r <==> p in names by {
      forall p ensures (p, p) in r <==> p in names {
        if (p, p) in r {
          var i :| 0 <= i < |r| && r[i] == (p, p);
          assert names[i] == p;
        }
        if p in names {
          var i :| 0 <= i < |names| && names[i] == p;
          assert r[i] == (p, p);
        }
      }
    }
    assert forall p :: p in names <==> p in Elements(CertificateProgrammes + DiplomaProgrammes);
    assert forall i, j :: 0 <= i < j < |names| ==> names[i] != names[j] by {
      forall i, j | 0 <= i < j < |names| ensures names[i] != names[j] {
        LessIrreflexive(names[i]);
      }
    }
    r
  }

  // ===========================================================================
  // Class choices
  // ===========================================================================

  /** The i-th school class, counting from 0: Primary 1-6, then JHS 1-3, then SHS 1-3. */
  function ClassName(i: nat): string
    requires i < 12
  {
    if i < 6 then "Primary " + [('1' as int + i) as char]
    else if i < 9 then "JHS " + [('1' as int + i - 6) as char]
    else "SHS " + [('1' as int + i - 9) as char]
  }

  /** The class names in the order `get_class_choices` lists them. */
  const ClassNames: seq<string> := [
    "Primary 1", "Primary 2", "Primary 3", "Primary 4", "Primary 5", "Primary 6",
    "JHS 1", "JHS 2", "JHS 3",
    "SHS 1", "SHS 2", "SHS 3"]

  /** The listed names follow the school order counted by ClassName. */
  lemma ClassNamesInSchoolOrder()
    ensures |ClassNames| == 12
    ensures forall i :: 0 <= i < 12 ==> ClassNames[i] == ClassName(i)
  {
    forall i | 0 <= i < 12 ensures ClassNames[i] == ClassName(i) {
      if i < 6 {
        assert ClassName(i) == "Primary " + [('1' as int + i) as char];
      }
    }
  }

  /** `get_class_choices`: the twelve fixed school classes in school order, each paired with itself. */
  function ClassChoices(): (r: seq<(string, string)>)
    ensures |r| == 12
    ensures forall i :: 0 <= i < |r| ==> r[i] == (ClassName(i), ClassName(i))
  {
    ClassNamesInSchoolOrder();
    SelfPairs(ClassNames)
  }

  // ===========================================================================
  // Level choices
  // ===========================================================================

  /** The non-null levels of a query result, in the order the query returned them. */
  function PresentLevels(levels: seq<Option<string>>): (r: seq<string>)
    ensures |r| <= |levels|
    ensures forall l :: l in r <==> Some(l) in levels
  {
    if levels == [] then []
    else
      var rest := PresentLevels(levels[1..]);
      assert levels == [levels[0]] + levels[1..];
      if levels[0].None? then rest else [levels[0].value] + rest
  }

  /** Filtering keeps the order: the levels of two concatenated results are the two filtered lists concatenated. */
  lemma {:induction false} PresentLevelsAppend(a: seq<Option<string>>, b: seq<Option<string>>)
    ensures PresentLevels(a + b) == PresentLevels(a) + PresentLevels(b)
  {
    if a != [] {
      assert (a + b)[0] == a[0] && (a + b)[1..] == a[1..] + b;
      PresentLevelsAppend(a[1..], b);
    } else {
      assert a + b == b;
    }
  }

  /**
   * `get_level_choices` over the distinct, ordered `programme_level` values
   * of the course table: each non-null level paired with the label "Level <l>".
   * The column holds strings, so `str(l)` is `l` itself.
   */
  function LevelChoices(levels: seq<Option<string>>): (r: seq<(string, string)>)
    ensures |r| == |PresentLevels(levels)|
    ensures forall i :: 0 <= i < |r| ==> r[i] == (PresentLevels(levels)[i], "Level " + PresentLevels(levels)[i])
  {
    var present := PresentLevels(levels);
    seq(|present|, i requires 0 <= i < |present| => (present[i], "Level " + present[i]))
  }

  /** A distinct query result gives distinct level choices. */
  lemma {:induction false} LevelChoicesDistinct(levels: seq<Option<string>>)
    requires forall i, j :: 0 <= i < j < |levels| ==> levels[i] != levels[j]
    ensures forall i, j :: 0 <= i < j < |LevelChoices(levels)| ==> LevelChoices(levels)[i] != LevelChoices(levels)[j]
  {
    PresentLevelsDistinct(levels);
  }

  lemma {:induction false} PresentLevelsDistinct(levels: seq<Option<string>>)
    requires forall i, j :: 0 <= i < j < |levels| ==> levels[i] != levels[j]
    ensures forall i, j :: 0 <= i < j < |PresentLevels(levels)| ==> PresentLevels(levels)[i] != PresentLevels(levels)[j]
  {
    if levels != [] {
      PresentLevelsDistinct(levels[1..]);
      var rest := PresentLevels(levels[1..]);
      if levels[0].Some? {
        assert Some(levels[0].value) !in levels[1..];
        assert levels[0].value !in rest;
      }
    }
  }
}
