/**
 * The editor's portal sanity check (Assets/Scripts/Editor/PortalSanityChecker.cs): one message
 * line per defect of each portal in the scene, or "No errors found!" when there are none.
 */
module PortalSanityChecking {
  import opened Geometry
  import opened Portals

  /** GlobalScaleTolerance. */
  const GlobalScaleTolerance: real := 0.01

  function Abs(x: real): real { if x < 0.0 then -x else x }

  /** Some axis of the two lossy scales differs by more than the tolerance. */
  predicate ScalesDiffer(a: Vec3, b: Vec3) {
    || Abs(a.x - b.x) > GlobalScaleTolerance
    || Abs(a.y - b.y) > GlobalScaleTolerance
    || Abs(a.z - b.z) > GlobalScaleTolerance
  }

  /** One reported defect, by the names of the portals involved. */
  datatype Defect =
    | NoTarget(name: string)
    | NoLinkBack(name: string, targetName: string)
    | ScaleMismatch(name: string, targetName: string)

  /** The fixed parts of the dialog's messages. */
  const NoTargetText := " does not have a target.\n"
  const TargetPrefixText := "'s target, "
  const NoLinkBackText := ", does not link back.\n"
  const AndText := " and "
  const ScaleMismatchText := " has differing global scales.\n"

  /** The dialog line for a defect. */
  function Line(d: Defect): (line: string)
    ensures |line| > 0 && line[|line| - 1] == '\n'
  {
    match d
    case NoTarget(n) => n + NoTargetText
    case NoLinkBack(n, t) => n + TargetPrefixText + t + NoLinkBackText
    case ScaleMismatch(n, t) => n + AndText + t + ScaleMismatchText
  }

  /**
   * The defects of one portal, in the order they are reported: a missing target alone (the
   * other checks are skipped); otherwise a missing link back, then a scale mismatch.
   */
  function DefectsOf(p: Portal): seq<Defect>
    reads p, p.target
  {
    if p.target == null then [NoTarget(p.name)]
    else
      (if p.target.target != p then [NoLinkBack(p.name, p.target.name)] else [])
      + (if ScalesDiffer(p.lossyScale, p.target.lossyScale) then [ScaleMismatch(p.name, p.target.name)] else [])
  }

  /** The defects of all portals, in portal order. */
  function AllDefects(portals: seq<Portal>): seq<Defect>
    reads set p | p in portals, set p | p in portals && p.target != null :: p.target
  {
    if portals == [] then []
    else AllDefects(portals[..|portals| - 1]) + DefectsOf(portals[|portals| - 1])
  }

  /** The dialog line of each defect. */
  function Lines(ds: seq<Defect>): seq<string> {
    if ds == [] then [] else Lines(ds[..|ds| - 1]) + [Line(ds[|ds| - 1])]
  }

  /** The strings one after another. */
  function Concat(ls: seq<string>): string {
    if ls == [] then "" else Concat(ls[..|ls| - 1]) + ls[|ls| - 1]
  }

  /** The dialog lines of the defects, one after another. */
  function Report(ds: seq<Defect>): string {
    Concat(Lines(ds))
  }

  lemma {:induction false} LinesAppend(a: seq<Defect>, b: seq<Defect>)
    ensures Lines(a + b) == Lines(a) + Lines(b)
    decreases |b|
  {
    if b == [] {
      assert a + b == a;
    } else {
      LinesAppend(a, b[..|b| - 1]);
      assert (a + b)[..|a + b| - 1] == a + b[..|b| - 1];
    }
  }

  lemma {:induction false} ConcatAppend(a: seq<string>, b: seq<string>)
    ensures Concat(a + b) == Concat(a) + Concat(b)
    decreases |b|
  {
    if b == [] {
      assert a + b == a;
    } else {
      var b', last := b[..|b| - 1], b[|b| - 1];
      ConcatAppend(a, b');
      assert (a + b)[..|a + b| - 1] == a + b';
      calc {
        Concat(a + b);
        Concat(a + b') + last;
        (Concat(a) + Concat(b')) + last;
        Concat(a) + (Concat(b') + last);
        Concat(a) + Concat(b);
      }
    }
  }

  /** The dialog text. */
  function Dialog(portals: seq<Portal>): string
    reads set p | p in portals, set p | p in portals && p.target != null :: p.target
  {
    var buffer := Report(AllDefects(portals));
    if buffer == "" then "No errors found!" else buffer
  }

  /** DoIt, over the portals FindObjectsOfType returns; the result is the text shown in the dialog. */
  method DoIt(portals: seq<Portal>) returns (buffer: string)
    ensures buffer == Dialog(portals)
  {
    buffer := "";
    var i := 0;
    while i < |portals|
      invariant 0 <= i <= |portals|
      invariant ReportedUpTo(portals, i, buffer)
    {
      var buffer' := CheckPortal(portals[i], buffer);
      ReportedStep(portals, i, buffer, buffer');
      buffer := buffer';
      i := i + 1;
    }
    ReportedAll(portals, buffer);
    if buffer == "" {
      buffer := "No errors found!";
    }
  }

  /** The buffer holds the text of the first i portals' defects. */
  predicate ReportedUpTo(portals: seq<Portal>, i: nat, buffer: string)
    requires i <= |portals|
    reads set p | p in portals, set p | p in portals && p.target != null :: p.target
  {
    buffer == Report(AllDefects(portals[..i]))
  }

  lemma ReportedStep(portals: seq<Portal>, i: nat, buffer: string, buffer': string)
    requires i < |portals| && ReportedUpTo(portals, i, buffer)
    requires buffer' == buffer + Report(DefectsOf(portals[i]))
    ensures ReportedUpTo(portals, i + 1, buffer')
  {
    AllDefectsStep(portals, i);
    ReportAppend(AllDefects(portals[..i]), DefectsOf(portals[i]));
  }

  lemma ReportedAll(portals: seq<Portal>, buffer: string)
    requires ReportedUpTo(portals, |portals|, buffer)
    ensures buffer == Report(AllDefects(portals))
  {
    assert portals[..|portals|] == portals;
  }

  /**
   * One iteration of DoIt's loop: the portal's messages are appended to the buffer, and a portal
   * with no target skips the remaining checks (the loop's continue).
   */
  method CheckPortal(portal: Portal, buffer: string) returns (buffer': string)
    ensures buffer' == buffer + Report(DefectsOf(portal))
  {
    buffer' := buffer;
    ghost var added: seq<Defect> := [];
    assert buffer' == buffer + Report(added);
    if portal.target == null {
      AppendReported(buffer, added, NoTarget(portal.name));
      buffer' := buffer' + Line(NoTarget(portal.name));
      added := added + [NoTarget(portal.name)];
      assert added == DefectsOf(portal);
      return;
    }
    if portal.target.target != portal {
      AppendReported(buffer, added, NoLinkBack(portal.name, portal.target.name));
      buffer' := buffer' + Line(NoLinkBack(portal.name, portal.target.name));
      added := added + [NoLinkBack(portal.name, portal.target.name)];
    }
    var p, t := portal.lossyScale, portal.target.lossyScale;
    if Abs(p.x - t.x) > GlobalScaleTolerance || Abs(p.y - t.y) > GlobalScaleTolerance || Abs(p.z - t.z) > GlobalScaleTolerance {
      AppendReported(buffer, added, ScaleMismatch(portal.name, portal.target.name));
      buffer' := buffer' + Line(ScaleMismatch(portal.name, portal.target.name));
      added := added + [ScaleMismatch(portal.name, portal.target.name)];
    }
    assert added == DefectsOf(portal);
  }

  /** Appending a defect's line to the buffer extends the reported defects by it. */
  lemma AppendReported(buffer: string, ds: seq<Defect>, d: Defect)
    ensures (buffer + Report(ds)) + Line(d) == buffer + Report(ds + [d])
  {
    AppendLine(ds, d);
  }

  /** The text of two lists of defects is the text of the first followed by that of the second. */
  lemma ReportAppend(a: seq<Defect>, b: seq<Defect>)
    ensures Report(a + b) == Report(a) + Report(b)
  {
    LinesAppend(a, b);
    ConcatAppend(Lines(a), Lines(b));
  }

  /** One more portal adds its own defects at the end. */
  lemma AllDefectsStep(portals: seq<Portal>, i: nat)
    requires i < |portals|
    ensures AllDefects(portals[..i + 1]) == AllDefects(portals[..i]) + DefectsOf(portals[i])
  {
    assert portals[..i + 1][..i] == portals[..i];
  }

  /** Appending one defect appends its line to the text. */
  lemma AppendLine(ds: seq<Defect>, d: Defect)
    ensures Report(ds + [d]) == Report(ds) + Line(d)
  {
    assert (ds + [d])[..|ds|] == ds;
    assert Lines(ds + [d]) == Lines(ds) + [Line(d)];
    assert (Lines(ds) + [Line(d)])[..|Lines(ds)|] == Lines(ds);
  }

  /** The text is empty exactly when there are no defects, and otherwise ends with a line break. */
  lemma {:induction false} TextEmptyIffNoDefects(ds: seq<Defect>)
    ensures Report(ds) == "" <==> ds == []
    ensures ds != [] ==> var text := Report(ds); text[|text| - 1] == '\n'
  {
    if ds != [] {
      AppendLine(ds[..|ds| - 1], ds[|ds| - 1]);
      assert ds[..|ds| - 1] + [ds[|ds| - 1]] == ds;
    }
  }

  /** A portal with no target is reported once, as such, and nothing else is checked for it. */
  lemma NoTargetReportedAlone(p: Portal)
    requires p.target == null
    ensures DefectsOf(p) == [NoTarget(p.name)]
    ensures Line(DefectsOf(p)[0]) == p.name + NoTargetText
  {
  }

  /**
   * For a portal with a target: a link-back message exactly when the target's target is some
   * other portal, and a scale message exactly when some axis differs by more than the tolerance.
   */
  lemma LinkedPortalDefects(p: Portal)
    requires p.target != null
    ensures NoLinkBack(p.name, p.target.name) in DefectsOf(p) <==> p.target.target != p
    ensures ScaleMismatch(p.name, p.target.name) in DefectsOf(p) <==> ScalesDiffer(p.lossyScale, p.target.lossyScale)
    ensures forall d :: d in DefectsOf(p) ==> !d.NoTarget?
  {
  }

  /** A bidirectionally linked pair with scales within tolerance contributes nothing. */
  lemma CleanPairIsSilent(p: Portal)
    requires p.target != null && p.target.target == p
    requires !ScalesDiffer(p.lossyScale, p.target.lossyScale)
    ensures DefectsOf(p) == []
  {
  }

  /**
   * The dialog says "No errors found!" exactly when no portal has a defect; otherwise it is
   * the defect lines in portal order.
   */
  lemma DialogIsReportOrAllClear(portals: seq<Portal>)
    ensures (Dialog(portals) == "No errors found!") <==> AllDefects(portals) == []
    ensures AllDefects(portals) != [] ==> Dialog(portals) == Report(AllDefects(portals))
  {
    TextEmptyIffNoDefects(AllDefects(portals));
    assert "No errors found!"[15] == '!';
  }
}
