// The verdict ladder over one conflicting set (server/corrupt.go, judgeSet,
// judgeShape, judgePast, judgeWithTwins, representatives). Its rungs write
// verdicts into the set's members over several passes; they never contradict
// each other.
module Verdicts {
  import opened Options

  datatype ReadErr = DriveError | OtherError

  // What the scan gathered about one member. stillThen, stillLater: its size and
  // time stood when the history, and when the container check, was weighed.
  datatype Member = Member(readErr: Option<ReadErr>, hash: string, contentChanged: bool, priorHash: string,
                           stillThen: bool, stillLater: bool)

  datatype Verdict = None_ | Corrupt | Intact | Unknown

  // Why, as far as the ladder itself distinguishes it; Silent is no note.
  datatype Note = Silent | CannotRead | OwnFraming | Busy | Difference | OwnPast | HistoryOnly | BesideDamage

  datatype Judged = Judged(verdict: Verdict, note: Note)

  datatype Intactness = Unproven | Proven | Damaged
  datatype Kind = Zeros | Tail | Bitflip | Mixed
  datatype DiffShape = DiffShape(kind: Kind, zeroSide: int, bytes: nat)

  // The container check of each member and the comparison of two members'
  // contents, which may fail.
  datatype Evidence = Evidence(check: nat -> Intactness, compare: (nat, nat) -> Option<DiffShape>)

  // Exactly the readable members have a hash; equal content, equal check unless
  // the check could not finish; equal contents show no difference.
  ghost predicate Sound(ms: seq<Member>, ev: Evidence) {
    && (forall i :: 0 <= i < |ms| ==> (ms[i].readErr.None? <==> ms[i].hash != ""))
    && (forall i: nat, j: nat :: Twins(ms, i, j) && ev.check(i) != Unproven && ev.check(j) != Unproven ==>
          ev.check(i) == ev.check(j))
    && (forall i: nat, j: nat :: Twins(ms, i, j) ==> ev.compare(i, j).None?)
  }

  predicate Twins(ms: seq<Member>, i: nat, j: nat) {
    i < |ms| && j < |ms| && ms[i].hash != "" && ms[i].hash == ms[j].hash
  }

  predicate Changed(m: Member) {
    m.readErr.None? && m.contentChanged && m.stillThen
  }

  // Something positive speaks against member i's own content.
  ghost predicate Against(ms: seq<Member>, ev: Evidence, i: nat)
    requires i < |ms|
  {
    || ev.check(i) == Damaged
    || exists j :: 0 <= j < |ms| && (LosesTo(ms, ev, i, j) || LosesTo2(ms, ev, j, i))
  }

  predicate LosesTo(ms: seq<Member>, ev: Evidence, i: nat, j: nat)
    requires i < |ms|
  {
    ev.compare(i, j).Some? &&
    match ev.compare(i, j).value.kind
    case Bitflip => Changed(ms[i])
    case Mixed => false
    case _ => ev.compare(i, j).value.zeroSide != 1
  }

  predicate LosesTo2(ms: seq<Member>, ev: Evidence, j: nat, i: nat)
    requires i < |ms|
  {
    ev.compare(j, i).Some? &&
    match ev.compare(j, i).value.kind
    case Bitflip => Changed(ms[i])
    case Mixed => false
    case _ => ev.compare(j, i).value.zeroSide == 1
  }

  // Only positive evidence convicts, the member's own or its exact twin's.
  ghost predicate Convictable(ms: seq<Member>, ev: Evidence, k: nat)
    requires k < |ms|
  {
    || ms[k].readErr == Some(DriveError)
    || Against(ms, ev, k)
    || exists i :: Twins(ms, i, k) && Against(ms, ev, i)
  }

  ghost predicate Fair(ms: seq<Member>, ev: Evidence, vs: seq<Judged>)
    requires |vs| == |ms|
  {
    && (forall k :: 0 <= k < |ms| && ms[k].readErr.Some? ==> vs[k].verdict == Corrupt || vs[k].verdict == Unknown)
    && (forall k :: 0 <= k < |ms| && vs[k].verdict == Corrupt ==> Convictable(ms, ev, k))
    && (forall k :: 0 <= k < |ms| && vs[k].note == Silent ==> vs[k].verdict == None_)
  }

  ghost predicate Has(vs: seq<Judged>, v: Verdict) {
    exists k :: 0 <= k < |vs| && vs[k].verdict == v
  }

  // No content is both damaged and intact, and intact is said only beside damage.
  ghost predicate Agree(ms: seq<Member>, vs: seq<Judged>)
    requires |vs| == |ms|
  {
    && (forall i: nat, j: nat :: Twins(ms, i, j) ==> !(vs[i].verdict == Corrupt && vs[j].verdict == Intact))
    && (Has(vs, Intact) ==> Has(vs, Corrupt))
  }

  // While the shapes of differences are judged: what one member was called, its
  // twins were judged too.
  ghost predicate TwinsJudged(ms: seq<Member>, vs: seq<Judged>)
    requires |vs| == |ms|
  {
    forall i: nat, j: nat :: Twins(ms, i, j) && (vs[i].verdict == Corrupt || vs[i].verdict == Intact) ==>
      vs[j].verdict != None_
  }

  method AnyVerdict(v: array<Judged>, want: Verdict) returns (any: bool)
    ensures any == Has(v[..], want)
  {
    for i := 0 to v.Length
      invariant forall k :: 0 <= k < i ==> v[k].verdict != want
    {
      if v[i].verdict == want {
        assert v[..][i].verdict == want;
        return true;
      }
    }
    return false;
  }

  function Labelled(ms: seq<Member>, vs: seq<Judged>, i: nat, verdict: Verdict, note: Note): (r: seq<Judged>)
    requires |vs| == |ms| && i < |ms|
    ensures |r| == |vs|
  {
    seq(|vs|, k requires 0 <= k < |vs| =>
      if vs[k].verdict == None_ && (k == i || Twins(ms, i, k)) then Judged(verdict, note) else vs[k])
  }

  // judgeWithTwins: one member and every unjudged one holding the same bytes. An
  // empty verdict copies the note only.
  method JudgeWithTwins(ms: seq<Member>, v: array<Judged>, i: nat, verdict: Verdict, note: Note)
    requires v.Length == |ms| && i < |ms|
    requires forall k :: 0 <= k < |ms| ==> (ms[k].readErr.None? <==> ms[k].hash != "")
    modifies v
    ensures v[..] == Labelled(ms, old(v[..]), i, verdict, note)
  {
    if v[i].verdict == None_ { v[i] := Judged(verdict, note); }
    var h := ms[i].hash;
    if h == "" { return; }
    for j := 0 to v.Length
      invariant v[i] == if old(v[i]).verdict == None_ then Judged(verdict, note) else old(v[i])
      invariant forall k :: 0 <= k < v.Length && k != i && k >= j ==> v[k] == old(v[k])
      invariant forall k :: 0 <= k < j && k != i ==>
        v[k] == if old(v[k]).verdict == None_ && ms[k].hash == h then Judged(verdict, note) else old(v[k])
    {
      if j == i || v[j].verdict != None_ || ms[j].readErr.Some? || ms[j].hash != h { continue; }
      v[j] := Judged(verdict, note);
    }
  }

  // representatives: the first readable member and the first whose content
  // differs from it.
  predicate Readable(m: Member) { m.readErr.None? && m.hash != "" }

  method Representatives(ms: seq<Member>) returns (pair: Option<(nat, nat)>)
    ensures pair.Some? ==> var (a, b) := pair.value;
      a < b < |ms| && Readable(ms[a]) && Readable(ms[b]) && ms[a].hash != ms[b].hash
    ensures pair.None? ==>
              forall a, b :: 0 <= a < |ms| && 0 <= b < |ms| && Readable(ms[a]) && Readable(ms[b]) ==>
                ms[a].hash == ms[b].hash
  {
    var first: Option<nat> := None;
    for i := 0 to |ms|
      invariant first.None? ==> forall k :: 0 <= k < i ==> !Readable(ms[k])
      invariant first.Some? ==> first.value < i && Readable(ms[first.value])
      invariant first.Some? ==> forall k :: 0 <= k < i && Readable(ms[k]) ==> ms[k].hash == ms[first.value].hash
    {
      if ms[i].readErr.Some? || ms[i].hash == "" { continue; }
      if first.None? {
        first := Some(i);
      } else if ms[i].hash != ms[first.value].hash {
        return Some((first.value, i));
      }
    }
    return None;
  }

  // ---------------------------------------------------------------- rung four

  ghost predicate Open(ms: seq<Member>, ev: Evidence, vs: seq<Judged>)
    requires |vs| == |ms|
  {
    Fair(ms, ev, vs) && Agree(ms, vs) && TwinsJudged(ms, vs)
  }

  // A verdict once given stands.
  ghost predicate Stands(before: seq<Judged>, after: seq<Judged>)
    requires |before| == |after|
  {
    forall k :: 0 <= k < |before| && before[k].verdict != None_ ==> after[k] == before[k]
  }

  lemma LabelKeeps(ms: seq<Member>, ev: Evidence, vs: seq<Judged>, i: nat, verdict: Verdict, note: Note)
    requires |vs| == |ms| && i < |ms| && Sound(ms, ev) && Open(ms, ev, vs) && Readable(ms[i])
    requires note != Silent && verdict != Unknown
    requires verdict == Corrupt ==> Against(ms, ev, i)
    requires verdict == Intact ==> Has(vs, Corrupt)
    ensures var r := Labelled(ms, vs, i, verdict, note);
      Open(ms, ev, r) && Stands(vs, r) && (verdict == Corrupt && vs[i].verdict == None_ ==> Has(r, Corrupt))
  {
    var r := Labelled(ms, vs, i, verdict, note);
    assert forall k :: 0 <= k < |r| && r[k] != vs[k] ==> vs[k].verdict == None_ && Twins(ms, i, k);
    forall k | 0 <= k < |ms| && r[k].verdict == Corrupt ensures Convictable(ms, ev, k) {
      if vs[k].verdict != Corrupt { assert Twins(ms, i, k); }
    }
    if Has(vs, Corrupt) {
      var k :| 0 <= k < |vs| && vs[k].verdict == Corrupt;
      assert r[k].verdict == Corrupt;
    }
    if verdict == Corrupt && vs[i].verdict == None_ { assert r[i].verdict == Corrupt; }
    LabelAgrees(ms, vs, i, verdict, note);
  }

  lemma LabelAgrees(ms: seq<Member>, vs: seq<Judged>, i: nat, verdict: Verdict, note: Note)
    requires |vs| == |ms| && i < |ms| && Readable(ms[i]) && verdict != Unknown
    requires Agree(ms, vs) && TwinsJudged(ms, vs)
    ensures var r := Labelled(ms, vs, i, verdict, note);
      && TwinsJudged(ms, r)
      && forall j: nat, k: nat :: Twins(ms, j, k) ==> !(r[j].verdict == Corrupt && r[k].verdict == Intact)
  {
    var r := Labelled(ms, vs, i, verdict, note);
    forall j: nat, k: nat | Twins(ms, j, k)
      ensures !(r[j].verdict == Corrupt && r[k].verdict == Intact)
      ensures r[j].verdict == Corrupt || r[j].verdict == Intact ==> r[k].verdict != None_
    {
      assert Twins(ms, k, j) && (Twins(ms, i, j) <==> Twins(ms, i, k));
    }
  }

  method JudgePast(ms: seq<Member>, ev: Evidence, v: array<Judged>, i: nat, j: nat)
    requires v.Length == |ms| && i < |ms| && j < |ms| && Readable(ms[i]) && Readable(ms[j])
    requires Sound(ms, ev) && Open(ms, ev, v[..]) && v[i].verdict == None_ && Changed(ms[i])
    requires ev.compare(i, j).Some?
    modifies v
    ensures Open(ms, ev, v[..]) && Stands(old(v[..]), v[..])
  {
    var d := ev.compare(i, j).value;
    if ((d.kind == Zeros || d.kind == Tail) && d.zeroSide == 0) || d.kind == Bitflip {
      assert LosesTo(ms, ev, i, j);
      LabelKeeps(ms, ev, v[..], i, Corrupt, OwnPast);
      JudgeWithTwins(ms, v, i, Corrupt, OwnPast);
      LabelKeeps(ms, ev, v[..], j, Intact, OwnPast);
      JudgeWithTwins(ms, v, j, Intact, OwnPast);
    } else {
      LabelKeeps(ms, ev, v[..], i, None_, OwnPast);
      JudgeWithTwins(ms, v, i, None_, OwnPast);
    }
  }

  method JudgeShape(ms: seq<Member>, ev: Evidence, v: array<Judged>, a: nat, b: nat, changed: seq<bool>)
    requires v.Length == |ms| == |changed| && a < |ms| && b < |ms| && a != b && Readable(ms[a]) && Readable(ms[b])
    requires ms[a].hash != ms[b].hash
    requires Sound(ms, ev) && Open(ms, ev, v[..]) && v[a].note == Silent && v[b].note == Silent
    requires forall k :: 0 <= k < |ms| ==> changed[k] == Changed(ms[k])
    requires ev.compare(a, b).Some?
    modifies v
    ensures Open(ms, ev, v[..]) && Stands(old(v[..]), v[..])
  {
    var d := ev.compare(a, b).value;
    match d.kind {
      case Bitflip =>
        if changed[a] == changed[b] {
          JudgeBoth(ms, ev, v, a, None_, b, None_);
          return;
        }
        var (rotted, other) := if changed[b] then (b, a) else (a, b);
        assert LosesTo(ms, ev, a, b) || LosesTo2(ms, ev, a, b);
        var former := ms[rotted].priorHash != "" && ms[other].hash == ms[rotted].priorHash;
        JudgeBoth(ms, ev, v, rotted, Corrupt, other, if former then Intact else None_);
      case Mixed =>
        JudgeBoth(ms, ev, v, a, None_, b, None_);
      case _ =>
        var (lost, kept) := if d.zeroSide == 1 then (b, a) else (a, b);
        assert LosesTo(ms, ev, a, b) || LosesTo2(ms, ev, a, b);
        JudgeBoth(ms, ev, v, lost, Corrupt, kept, Intact);
    }
  }

  method JudgeBoth(ms: seq<Member>, ev: Evidence, v: array<Judged>, i: nat, vi: Verdict, j: nat, vj: Verdict)
    requires v.Length == |ms| && i < |ms| && j < |ms| && Readable(ms[i]) && Readable(ms[j])
    requires Sound(ms, ev) && Open(ms, ev, v[..]) && v[i].verdict == None_
    requires (vi == Corrupt && Against(ms, ev, i) && vj != Unknown && vj != Corrupt) || (vi == None_ && vj == None_)
    modifies v
    ensures Open(ms, ev, v[..]) && Stands(old(v[..]), v[..])
  {
    LabelKeeps(ms, ev, v[..], i, vi, Difference);
    JudgeWithTwins(ms, v, i, vi, Difference);
    LabelKeeps(ms, ev, v[..], j, vj, Difference);
    JudgeWithTwins(ms, v, j, vj, Difference);
  }

  // ------------------------------------------------------------ the other rungs

  // Rungs one and three, as each member leaves them: a failed read, a container
  // that convicts its own file, or nothing yet.
  ghost predicate EarlyVerdicts(ms: seq<Member>, ev: Evidence, vs: seq<Judged>, upTo: nat)
    requires |vs| == |ms| && upTo <= |ms|
  {
    forall k :: 0 <= k < |ms| ==> vs[k] == EarlyVerdict(ms[k], if k < upTo then ev.check(k) else Unproven)
  }

  function EarlyVerdict(m: Member, check: Intactness): Judged {
    if m.readErr == Some(DriveError) then Judged(Corrupt, CannotRead)
    else if m.readErr.Some? then Judged(Unknown, CannotRead)
    else if check != Damaged then Judged(None_, Silent)
    else if !m.stillLater then Judged(Unknown, Busy)
    else Judged(Corrupt, OwnFraming)
  }

  method ReadErrors(ms: seq<Member>, v: array<Judged>)
    requires v.Length == |ms| && forall k :: 0 <= k < |ms| ==> v[k] == Judged(None_, Silent)
    modifies v
    ensures forall k :: 0 <= k < |ms| ==> v[k] == EarlyVerdict(ms[k], Unproven)
  {
    for i := 0 to v.Length
      invariant forall k :: 0 <= k < v.Length ==>
                  v[k] == if k < i then EarlyVerdict(ms[k], Unproven) else Judged(None_, Silent)
    {
      if ms[i].readErr.None? { continue; }
      v[i] := if ms[i].readErr.value.DriveError? then Judged(Corrupt, CannotRead) else Judged(Unknown, CannotRead);
    }
  }

  method History(ms: seq<Member>, v: array<Judged>) returns (changed: seq<bool>)
    requires v.Length == |ms| && forall k :: 0 <= k < |ms| ==> v[k] == EarlyVerdict(ms[k], Unproven)
    ensures |changed| == |ms| && forall k :: 0 <= k < |ms| ==> changed[k] == Changed(ms[k])
  {
    changed := [];
    for i := 0 to |ms|
      invariant |changed| == i && forall k :: 0 <= k < i ==> changed[k] == Changed(ms[k])
    {
      changed := changed + [v[i].verdict == None_ && ms[i].contentChanged && ms[i].stillThen];
    }
  }

  method Containers(ms: seq<Member>, ev: Evidence, v: array<Judged>) returns (checked: seq<Intactness>)
    requires v.Length == |ms| && EarlyVerdicts(ms, ev, v[..], 0)
    modifies v
    ensures EarlyVerdicts(ms, ev, v[..], |ms|)
    ensures |checked| == |ms|
    ensures forall k :: 0 <= k < |ms| ==> checked[k] == if ms[k].readErr.Some? then Unproven else ev.check(k)
  {
    checked := [];
    for i := 0 to v.Length
      invariant EarlyVerdicts(ms, ev, v[..], i)
      invariant |checked| == i
      invariant forall k :: 0 <= k < i ==> checked[k] == if ms[k].readErr.Some? then Unproven else ev.check(k)
    {
      if ms[i].readErr.Some? {
        checked := checked + [Unproven];
        continue;
      }
      var st := ev.check(i);
      checked := checked + [st];
      if st != Damaged || v[i].verdict != None_ { continue; }
      v[i] := if ms[i].stillLater then Judged(Corrupt, OwnFraming) else Judged(Unknown, Busy);
    }
  }

  lemma EarlyIsFair(ms: seq<Member>, ev: Evidence, vs: seq<Judged>)
    requires |vs| == |ms| && Sound(ms, ev) && EarlyVerdicts(ms, ev, vs, |ms|)
    ensures Fair(ms, ev, vs) && Agree(ms, vs) && UnjudgedTwins(ms, ev, vs)
    ensures !Has(vs, Corrupt) ==> TwinsJudged(ms, vs)
  {
    if !Has(vs, Corrupt) {
      forall k | 0 <= k < |vs| ensures vs[k].verdict != Corrupt { }
    }
  }

  // A member left open beside a twin called damaged: the container said so.
  ghost predicate UnjudgedTwins(ms: seq<Member>, ev: Evidence, vs: seq<Judged>)
    requires |vs| == |ms|
  {
    forall i: nat, j: nat :: Twins(ms, i, j) && vs[j].verdict == Corrupt && vs[i].verdict == None_ ==>
      ev.check(j) == Damaged
  }

  // Rung four against the past: members whose content moved, each beside the
  // first readable sibling holding what it used to hold.
  method ShapesOfThePast(ms: seq<Member>, ev: Evidence, v: array<Judged>, changed: seq<bool>)
    requires v.Length == |ms| == |changed| && Sound(ms, ev) && Open(ms, ev, v[..])
    requires forall k :: 0 <= k < |ms| ==> changed[k] == Changed(ms[k])
    modifies v
    ensures Open(ms, ev, v[..]) && Stands(old(v[..]), v[..])
  {
    for i := 0 to v.Length
      invariant Open(ms, ev, v[..]) && Stands(old(v[..]), v[..])
    {
      if !changed[i] || v[i].verdict != None_ || ms[i].priorHash == "" { continue; }
      for j := 0 to v.Length
        invariant Open(ms, ev, v[..]) && Stands(old(v[..]), v[..])
        invariant v[i].verdict == None_
      {
        if j == i || ms[j].readErr.Some? || ms[j].hash != ms[i].priorHash { continue; }
        if ev.compare(i, j).Some? { JudgePast(ms, ev, v, i, j); }
        break;
      }
    }
  }

  method ShapeOfTheSet(ms: seq<Member>, ev: Evidence, v: array<Judged>, changed: seq<bool>, variants: nat)
    requires v.Length == |ms| == |changed| && Sound(ms, ev) && Open(ms, ev, v[..])
    requires forall k :: 0 <= k < |ms| ==> changed[k] == Changed(ms[k])
    modifies v
    ensures Open(ms, ev, v[..]) && Stands(old(v[..]), v[..])
  {
    var damaged := AnyVerdict(v, Corrupt);
    if damaged || variants != 2 { return; }
    var pair := Representatives(ms);
    if pair.None? { return; }
    var (a, b) := pair.value;
    if v[a].note != Silent || v[b].note != Silent { return; }
    if ev.compare(a, b).Some? { JudgeShape(ms, ev, v, a, b, changed); }
  }

  ghost predicate Settling(ms: seq<Member>, ev: Evidence, vs: seq<Judged>)
    requires |vs| == |ms|
  {
    && (forall k :: 0 <= k < |ms| && vs[k].verdict == Corrupt ==> Convictable(ms, ev, k))
    && Agree(ms, vs) && UnjudgedTwins(ms, ev, vs)
  }

  lemma OneSettles(ms: seq<Member>, ev: Evidence, vs: seq<Judged>, i: nat, g: Judged)
    requires |vs| == |ms| && i < |ms| && Sound(ms, ev) && Settling(ms, ev, vs) && vs[i].verdict == None_
    requires g.verdict == Unknown || (g.verdict == Intact && ev.check(i) == Proven && Has(vs, Corrupt))
    ensures Settling(ms, ev, vs[i := g]) && Stands(vs, vs[i := g])
    ensures Has(vs, Corrupt) ==> Has(vs[i := g], Corrupt)
  {
    var r := vs[i := g];
    if Has(vs, Corrupt) {
      var k :| 0 <= k < |vs| && vs[k].verdict == Corrupt;
      assert r[k].verdict == Corrupt;
    }
    if g.verdict == Unknown {
      forall k | 0 <= k < |r| && r[k].verdict == Intact ensures Has(vs, Intact) { assert vs[k].verdict == Intact; }
    }
    forall j: nat, k: nat | Twins(ms, j, k) ensures !(r[j].verdict == Corrupt && r[k].verdict == Intact) {
      assert Twins(ms, k, j);
    }
  }

  // History nothing corroborated, then intact copies beside a damaged one, then
  // the rest.
  method Settle(ms: seq<Member>, ev: Evidence, v: array<Judged>, changed: seq<bool>, checked: seq<Intactness>)
    requires v.Length == |ms| == |changed| == |checked| && Sound(ms, ev) && Settling(ms, ev, v[..])
    requires forall k :: 0 <= k < |ms| ==> checked[k] == if ms[k].readErr.Some? then Unproven else ev.check(k)
    modifies v
    ensures Settling(ms, ev, v[..]) && Stands(old(v[..]), v[..])
    ensures forall k :: 0 <= k < |ms| ==> v[k].verdict != None_
  {
    for i := 0 to v.Length
      invariant Settling(ms, ev, v[..]) && Stands(old(v[..]), v[..])
    {
      if v[i].verdict != None_ || !changed[i] { continue; }
      var g := Judged(Unknown, if v[i].note != Silent then v[i].note else HistoryOnly);
      OneSettles(ms, ev, v[..], i, g);
      v[i] := g;
    }
    var damaged := AnyVerdict(v, Corrupt);
    if damaged {
      for i := 0 to v.Length
        invariant Settling(ms, ev, v[..]) && Stands(old(v[..]), v[..]) && Has(v[..], Corrupt)
      {
        if v[i].verdict != None_ || checked[i] != Proven { continue; }
        var g := Judged(Intact, if v[i].note != Silent then v[i].note else BesideDamage);
        OneSettles(ms, ev, v[..], i, g);
        v[i] := g;
      }
    }
    for i := 0 to v.Length
      invariant Settling(ms, ev, v[..]) && Stands(old(v[..]), v[..])
      invariant forall k :: 0 <= k < i ==> v[k].verdict != None_
    {
      if v[i].verdict == None_ {
        var g := Judged(Unknown, v[i].note);
        OneSettles(ms, ev, v[..], i, g);
        v[i] := g;
      }
    }
  }

  method RungFour(ms: seq<Member>, ev: Evidence, v: array<Judged>, changed: seq<bool>, variants: nat)
    requires v.Length == |ms| == |changed| && Sound(ms, ev) && EarlyVerdicts(ms, ev, v[..], |ms|)
    requires forall k :: 0 <= k < |ms| ==> changed[k] == Changed(ms[k])
    modifies v
    ensures Settling(ms, ev, v[..]) && Stands(old(v[..]), v[..])
  {
    EarlyIsFair(ms, ev, v[..]);
    var damaged := AnyVerdict(v, Corrupt);
    if damaged { return; }
    ShapesOfThePast(ms, ev, v, changed);
    ShapeOfTheSet(ms, ev, v, changed, variants);
  }

  // judgeSet, not cancelled: every member ends with a verdict; damage is only
  // said on positive evidence, and always where the read or the file's own
  // container gave it; intact is only said beside damage; and no content is
  // called both.
  method JudgeSet(ms: seq<Member>, ev: Evidence, variants: nat) returns (v: array<Judged>)
    requires Sound(ms, ev)
    ensures fresh(v) && v.Length == |ms|
    ensures forall k :: 0 <= k < |ms| ==> v[k].verdict != None_
    ensures forall k :: 0 <= k < |ms| && v[k].verdict == Corrupt ==> Convictable(ms, ev, k)
    ensures forall k :: 0 <= k < |ms| && EarlyVerdict(ms[k], ev.check(k)).verdict != None_ ==>
              v[k] == EarlyVerdict(ms[k], ev.check(k))
    ensures Agree(ms, v[..])
  {
    v := new Judged[|ms|](i => Judged(None_, Silent));
    ReadErrors(ms, v);
    var changed := History(ms, v);
    var checked := Containers(ms, ev, v);
    ghost var early := v[..];
    RungFour(ms, ev, v, changed, variants);
    Settle(ms, ev, v, changed, checked);
    assert Stands(early, v[..]);
  }
}
