// The staged move (server/fsapi.go, moveViaFS, claimFromStaging, sourceLeaves,
// arrived, firstFreeName): one entry moved through File Station while answers
// get lost and other writers race for names.
module StagedMove {
  import opened Options
  import opened Paths
  import opened JournalLines
  import opened FileStation

  const NAME_TRIES := 10000
  const CLAIM_TRIES := 25

  // filepath.Ext: from the last dot of the name on.
  function ExtAt(base: string, i: nat): string
    requires i <= |base|
  {
    if i == 0 then "" else if base[i - 1] == '.' then base[i - 1..] else ExtAt(base, i - 1)
  }

  function Decimal(n: nat): string {
    (if n < 10 then "" else Decimal(n / 10)) + [['0', '1', '2', '3', '4', '5', '6', '7', '8', '9'][n % 10]]
  }

  // "name.ext", "name (1).ext", ...; a name that is all extension is numbered
  // at its end.
  function Variant(base: string, i: nat): string {
    var ext := ExtAt(base, |base|);
    if i == 0 then base
    else if |ext| >= |base| then base + " (" + Decimal(i) + ")"
    else base[..|base| - |ext|] + " (" + Decimal(i) + ")" + ext
  }

  // How a move ended, as reported: under a name in the destination, parked in
  // the staging folder, moved but not seen to arrive, perhaps still running,
  // or failed with the source in place.
  datatype Outcome = Landed(name: string) | Parked | MovedBut | Unsettled | Failed

  // p is an entry of dir itself.
  predicate In(p: Path, dir: Path) { |p| == |dir| + 1 && dir <= p }

  lemma InIs(p: Path, dir: Path)
    requires In(p, dir)
    ensures p == dir + [Base(p)]
  {
  }

  // The report against the entry's real place.
  ghost predicate Truth(r: Outcome, at: Path, src: Path, tmp: Path, out: Path, base: string) {
    match r
    case Landed(name) => at == out + [name]
    case Parked => tmp < at
    case MovedBut => at != src
    case Unsettled => at == src || at == out + [base]
    case Failed => at == src
  }

  // ------------------------------------------ conversations that mislead

  // The direct move took effect behind a refusal.
  ghost predicate HidMove(t: Talk, src: Path, dest: Path) {
    t.Then? && t.last.Moved? && t.last.from == src && t.last.to == dest && t.last.took && t.last.reply.Coded?
  }

  ghost predicate Unanswered(t: Talk) { t.Then? && t.last.Probed? && !t.last.answered }

  ghost predicate Probing(t: Talk) { t.Then? && t.last.Probed? }

  // And of the two probes that should tell, at the destination and at the source,
  // one went unanswered.
  ghost predicate HiddenLanding(t: Talk, src: Path, dest: Path) {
    t.Then? && (HiddenLanding(t.before, src, dest)
                || (Unanswered(t) && (HidMove(t.before, src, dest)
                                      || (Probing(t.before) && HidMove(t.before.before, src, dest)))))
  }

  // The direct move never hid anything.
  ghost predicate NoneHid(t: Talk, src: Path, dest: Path) {
    t.Then? ==> !HidMove(t, src, dest) && NoneHid(t.before, src, dest)
  }

  // A failed move whose effect its probe has to settle: out of the source, it took
  // none; out of the staging folder, it took effect.
  ghost predicate Unclear(t: Talk, src: Path, tmp: Path) {
    && t.Then? && t.last.Moved?
    && ((t.last.from == src && tmp < t.last.to && !t.last.took)
        || (tmp < t.last.from && t.last.took && t.last.reply.Lost?))
  }

  // The conversation ends with such a move and its unanswered probe.
  ghost predicate UnclearEnd(t: Talk, src: Path, tmp: Path) {
    Unanswered(t) && Unclear(t.before, src, tmp)
  }

  ghost predicate Misleading(t: Talk, src: Path, out: Path, tmp: Path) {
    HiddenLanding(t, src, out + [Base(src)]) || UnclearEnd(t, src, tmp)
  }

  // Where the entry is at the end, whatever was said and asked.
  ghost predicate Settled(r: Outcome, at: Path, t: Talk, src: Path, out: Path, tmp: Path) {
    if HiddenLanding(t, src, out + [Base(src)]) then at == out + [Base(src)] && (r.Failed? || r.Parked?)
    else if UnclearEnd(t, src, tmp) then r.Parked? && if t.before.last.took then In(at, out) else at == src
    else Truth(r, at, src, tmp, out, Base(src)) && (r.MovedBut? ==> In(at, out))
  }

  // So the report is true exactly when the conversation was not misleading.
  lemma SettledTruth(r: Outcome, at: Path, t: Talk, src: Path, out: Path, tmp: Path)
    requires Settled(r, at, t, src, out, tmp)
    requires out < tmp && !(tmp <= src) && src != out + [Base(src)] && tmp != out + [Base(src)]
    ensures Truth(r, at, src, tmp, out, Base(src)) <==> !Misleading(t, src, out, tmp)
  {
  }

  // Whatever is probed next, it will not be an unclear end.
  ghost predicate Clear(t: Talk, src: Path, tmp: Path) {
    !UnclearEnd(t, src, tmp) && !Unclear(t, src, tmp)
  }

  ghost predicate OnlyProbes(a: Talk, b: Talk) {
    b == a || (Probing(b) && OnlyProbes(a, b.before))
  }

  // After a, only what lies in tmp was asked to be moved.
  ghost predicate OnlyFrom(a: Talk, b: Talk, tmp: Path) {
    b == a || (b.Then? && (b.last.Moved? ==> tmp < b.last.from) && OnlyFrom(a, b.before, tmp))
  }

  lemma {:induction false} OnlyFromOn(a: Talk, b: Talk, c: Talk, tmp: Path)
    requires OnlyFrom(a, b, tmp) && OnlyFrom(b, c, tmp)
    ensures OnlyFrom(a, c, tmp)
  {
    if c != b { OnlyFromOn(a, b, c.before, tmp); }
  }

  lemma {:induction false} ProbesOn(a: Talk, b: Talk, c: Talk, tmp: Path)
    requires OnlyFrom(a, b, tmp) && OnlyProbes(b, c)
    ensures OnlyFrom(a, c, tmp)
  {
    if c != b { ProbesOn(a, b, c.before, tmp); }
  }

  lemma {:induction false} ProbesStayClear(a: Talk, b: Talk, src: Path, tmp: Path)
    requires Clear(a, src, tmp) && OnlyProbes(a, b)
    ensures Clear(b, src, tmp)
  {
    if b != a { ProbesStayClear(a, b.before, src, tmp); }
  }

  lemma {:induction false} ProbesHideNothing(a: Talk, b: Talk, src: Path, dest: Path)
    requires NoneHid(a, src, dest) && OnlyProbes(a, b)
    ensures NoneHid(b, src, dest)
  {
    if b != a { ProbesHideNothing(a, b.before, src, dest); }
  }

  lemma {:induction false} NothingHidden(t: Talk, src: Path, dest: Path)
    requires NoneHid(t, src, dest)
    ensures !HiddenLanding(t, src, dest)
  {
    if t.Then? {
      NothingHidden(t.before, src, dest);
      if t.before.Then? { assert NoneHid(t.before.before, src, dest); }
    }
  }

  // An answered probe hides nothing.
  lemma AnsweredHides(t: Talk, src: Path, dest: Path)
    requires t.Then? && !Unanswered(t)
    ensures HiddenLanding(t, src, dest) == HiddenLanding(t.before, src, dest)
  {
  }

  // What was hidden before the staging stays so, and nothing more is.
  lemma {:induction false} HiddenBefore(a: Talk, b: Talk, src: Path, dest: Path, tmp: Path)
    requires OnlyFrom(a, b, tmp) && !(tmp <= src)
    ensures HiddenLanding(a, src, dest) ==> HiddenLanding(b, src, dest)
    ensures NoneHid(a, src, dest) ==> NoneHid(b, src, dest)
  {
    if b != a { HiddenBefore(a, b.before, src, dest, tmp); }
  }

  twostate predicate LogKept(w: World)
    reads w.log
  {
    old(w.log.lines) <= w.log.lines && old(w.log.synced) <= w.log.synced
  }

  // ------------------------------------------------------------ the steps

  // The name is free and File Station says so.
  ghost predicate SeenFree(w: World, tree: Tree, t: nat, p: Path) {
    w.Calm(t) && w.fate(t).yes && p !in tree
  }

  method FirstFreeName(w: World, folder: Path, base: string) returns (free: Option<string>)
    requires w.Valid()
    modifies w`tree, w`clock, w`talk
    ensures w.Valid() && OthersIntact(old(w.tree), w.tree, w.item.id) && OnlyProbes(old(w.talk), w.talk)
    ensures free.Some? ==> folder + [free.value] !in w.tree
    ensures free.Some? ==> exists i :: 0 <= i < NAME_TRIES && free.value == Variant(base, i)
                                && forall j :: 0 <= j < i ==> folder + [Variant(base, j)] in w.tree
    ensures SeenFree(w, old(w.tree), old(w.clock), folder + [base]) ==>
              free == Some(base) && w.clock == old(w.clock) + 1 && w.tree == old(w.tree)
  {
    for i := 0 to NAME_TRIES
      invariant w.Valid() && OthersIntact(old(w.tree), w.tree, w.item.id) && OnlyProbes(old(w.talk), w.talk)
      invariant forall j :: 0 <= j < i ==> folder + [Variant(base, j)] in w.tree
      invariant if i == 0 then w.tree == old(w.tree) && w.clock == old(w.clock)
                else !SeenFree(w, old(w.tree), old(w.clock), folder + [base])
    {
      var answered, taken := w.Stat(folder + [Variant(base, i)]);
      if !answered { return None; }
      if !taken { return Some(Variant(base, i)); }
    }
    return None;
  }

  // The source is watched until File Station says it is gone, or patience ends.
  method SourceLeaves(w: World, src: Path, dest: Path, polls: nat) returns (gone: bool)
    requires w.Valid() && src != dest && (w.at == src || w.at == dest) && IsUnder(src, w.reserved)
    requires w.log.Announced(dest)
    modifies w
    ensures w.Valid() && OthersIntact(old(w.tree), w.tree, w.item.id) && OnlyProbes(old(w.talk), w.talk)
    ensures w.at == src || w.at == dest
    ensures gone ==> w.at == dest
    ensures old(w.at) == dest && w.fate(old(w.clock) + 1).yes ==> gone && w.clock == old(w.clock) + 2
  {
    gone := false;
    for i := 0 to polls + 1
      invariant w.Valid() && OthersIntact(old(w.tree), w.tree, w.item.id) && OnlyProbes(old(w.talk), w.talk)
      invariant w.at == src || w.at == dest
      invariant if i == 0 then w.at == old(w.at) && w.clock == old(w.clock)
                else !(old(w.at) == dest && w.fate(old(w.clock) + 1).yes)
    {
      w.MayLand(src, dest);
      var answered, there := w.Stat(src);
      if answered && !there { return true; }
    }
  }

  // Is the entry now at dest the one that left? A namesake is not taken for it.
  method Arrived(w: World, dest: Path, name: string, want: Ident) returns (r: Outcome)
    requires w.Valid() && w.at == dest
    modifies w`tree, w`clock, w`talk
    ensures w.Valid() && OthersIntact(old(w.tree), w.tree, w.item.id)
    ensures Probing(w.talk) && w.talk.before == old(w.talk) && w.talk.last.answered == w.fate(old(w.clock)).yes
    ensures r == if w.talk.last.answered && Matches(w.item, want) then Landed(name) else MovedBut
  {
    var answered, same := w.GetInfo(dest, want);
    return if answered && same then Landed(name) else MovedBut;
  }

  ghost predicate Waiting(w: World, tmp: Path, cur: string)
    reads w, w.log
  {
    w.Valid() && tmp in w.reserved && w.at == tmp + [cur] && w.log.Staged(tmp)
  }

  method RenameStaged(w: World, tmp: Path, cur: string, free: string) returns (ok: bool)
    requires Waiting(w, tmp, cur) && cur != free
    modifies w
    ensures w.Valid() && OthersIntact(old(w.tree), w.tree, w.item.id)
    ensures if ok then Waiting(w, tmp, free) else tmp < w.at
    ensures w.talk.Then? && w.talk.before == old(w.talk)
    ensures w.talk.last.Moved? && w.talk.last.from == tmp + [cur] && (ok ==> w.talk.last.reply.Ok?)
  {
    var src := tmp + [cur];
    w.log.StagedAnnounces(tmp, tmp + [free]);
    assert src[..|src| - 1] == tmp;
    var r, took := w.Rename(src, free);
    ok := r.Ok?;
  }

  // One attempt at the last step. Again: refused in a way a taken name explains.
  datatype Hop = Finished(r: Outcome) | Again

  // At calls t and on: announced, done, the answer lost, the probe unanswered.
  ghost predicate LosesHop(w: World, tree: Tree, t: nat, p: Path) {
    && w.fate(t).luck.Whole? && w.Calm(t + 1) && w.fate(t + 1).yes && w.fate(t + 1).said.Lost? && !w.fate(t + 2).yes
    && p !in tree
  }

  // The answer was lost. The staging folder is asked first.
  method SettleHop(w: World, tmp: Path, cur: string, out: Path, want: Ident) returns (r: Outcome)
    requires w.Valid() && tmp in w.reserved && (w.at == tmp + [cur] || w.at == out + [cur]) && out != tmp
    modifies w`tree, w`clock, w`talk
    ensures w.Valid() && OthersIntact(old(w.tree), w.tree, w.item.id) && OnlyProbes(old(w.talk), w.talk)
    ensures r == Landed(cur) || r.Parked? || r.MovedBut?
    ensures !r.Parked? ==> w.at == out + [cur] && Probing(w.talk) && Probing(w.talk.before)
    ensures r.Parked? ==> w.talk.Then? && w.talk.before == old(w.talk) && (Unanswered(w.talk) || w.at == tmp + [cur])
    ensures !w.fate(old(w.clock)).yes ==> r.Parked?
  {
    assert (tmp + [cur])[..|tmp|] == tmp && (out + [cur])[..|out|] == out;
    var answered, inTmp := w.Stat(tmp + [cur]);
    if answered && !inTmp {
      r := Arrived(w, out + [cur], cur, want);
      return;
    }
    assert inTmp ==> IsUnder(tmp + [cur], w.reserved);
    return Parked;
  }

  method FinalHop(w: World, tmp: Path, cur: string, out: Path, want: Ident, ghost src: Path) returns (h: Hop)
    requires Waiting(w, tmp, cur) && out < tmp && !(tmp <= src) && Clear(w.talk, src, tmp)
    modifies w, w.log`lines, w.log`synced
    ensures w.Valid() && OthersIntact(old(w.tree), w.tree, w.item.id) && LogKept(w)
    ensures OnlyFrom(old(w.talk), w.talk, tmp)
    ensures h.Again? ==> Waiting(w, tmp, cur) && Clear(w.talk, src, tmp)
    ensures h.Finished? ==> h.r == Landed(cur) || h.r.Parked? || h.r.MovedBut?
    ensures h.Finished? && !h.r.Parked? ==> w.at == out + [cur] && !UnclearEnd(w.talk, src, tmp)
    ensures h.Finished? && h.r.Parked? ==> w.at == if UnclearEnd(w.talk, src, tmp) then out + [cur] else tmp + [cur]
    ensures UnclearEnd(w.talk, src, tmp) ==> w.talk.before.last.took
    ensures LosesHop(w, old(w.tree), old(w.clock), out + [cur]) ==> h == Finished(Parked) && w.at == out + [cur]
  {
    var ok := w.Announce(out + [cur], [tmp + [cur]]);
    if !ok { return Finished(Parked); }
    assert (tmp + [cur])[..|tmp|] == tmp && (out + [cur])[..|out|] == out;
    var r, took := w.Move(tmp + [cur], out, NoCode);
    if r.Ok? { return Finished(Landed(cur)); }
    if OutcomeUnknown(r) {
      ghost var asked := w.talk;
      var o := SettleHop(w, tmp, cur, out, want);
      ProbesOn(old(w.talk), asked, w.talk, tmp);
      return Finished(o);
    }
    return if WorthStaging(r) then Again else Finished(Parked);
  }

  method TakeFreeName(w: World, tmp: Path, cur: string, base: string, out: Path, ghost src: Path)
    returns (ok: bool, cur': string)
    requires Waiting(w, tmp, cur) && out < tmp && !(tmp <= src) && Clear(w.talk, src, tmp)
    modifies w
    ensures w.Valid() && OthersIntact(old(w.tree), w.tree, w.item.id)
    ensures OnlyFrom(old(w.talk), w.talk, tmp)
    ensures if ok then Waiting(w, tmp, cur') && Clear(w.talk, src, tmp) else tmp < w.at && !UnclearEnd(w.talk, src, tmp)
    ensures SeenFree(w, old(w.tree), old(w.clock), out + [base]) && cur == base ==>
              ok && cur' == base && w.clock == old(w.clock) + 1 && w.tree == old(w.tree)
  {
    cur' := cur;
    var free := FirstFreeName(w, out, base);
    ProbesStayClear(old(w.talk), w.talk, src, tmp);
    ProbesOn(old(w.talk), old(w.talk), w.talk, tmp);
    ok := free.Some?;
    if ok && free.value != cur {
      cur' := free.value;
      ok := RenameStaged(w, tmp, cur, cur');
    }
  }

  // One round of the final hop: rename inside the staging folder to a free name,
  // then move into place. cur' is the name it now waits under.
  method ClaimOnce(w: World, tmp: Path, cur: string, base: string, out: Path, want: Ident, ghost src: Path)
    returns (h: Hop, cur': string)
    requires Waiting(w, tmp, cur) && out < tmp && !(tmp <= src) && Clear(w.talk, src, tmp)
    modifies w, w.log`lines, w.log`synced
    ensures w.Valid() && OthersIntact(old(w.tree), w.tree, w.item.id) && LogKept(w)
    ensures OnlyFrom(old(w.talk), w.talk, tmp)
    ensures h.Again? ==> Waiting(w, tmp, cur') && Clear(w.talk, src, tmp)
    ensures h.Finished? ==> ClaimTruth(h.r, w, src, tmp, out)
    ensures SeenFree(w, old(w.tree), old(w.clock), out + [base]) && cur == base
            && LosesHop(w, old(w.tree), old(w.clock) + 1, out + [base]) ==>
              h == Finished(Parked) && w.at == out + [base]
  {
    var ok;
    ok, cur' := TakeFreeName(w, tmp, cur, base, out, src);
    if !ok { return Finished(Parked), cur'; }
    ghost var named := w.talk;
    h := FinalHop(w, tmp, cur', out, want, src);
    OnlyFromOn(old(w.talk), named, w.talk, tmp);
    if h.Finished? { return; }
    // Refused while the name is still free: not a collision after all.
    ghost var refused := w.talk;
    var n2 := FirstFreeName(w, out, base);
    ProbesStayClear(refused, w.talk, src, tmp);
    ProbesOn(old(w.talk), refused, w.talk, tmp);
    if n2.None? || n2.value == cur' { h := Finished(Parked); }
  }

  // The report of the final hop against the entry's real place. It says parked
  // while the entry is in the destination exactly when the last hop took effect
  // and neither its answer nor the probe after it came through.
  ghost predicate ClaimTruth(r: Outcome, w: World, src: Path, tmp: Path, out: Path)
    reads w
  {
    match r
    case Landed(name) => w.at == out + [name] && !UnclearEnd(w.talk, src, tmp)
    case MovedBut => In(w.at, out) && !UnclearEnd(w.talk, src, tmp)
    case Parked => if UnclearEnd(w.talk, src, tmp) then In(w.at, out) && w.talk.before.last.took else tmp < w.at
    case _ => false
  }

  // The final hop, again when another writer takes the name first.
  method ClaimFromStaging(w: World, tmp: Path, base: string, out: Path, want: Ident, ghost src: Path)
    returns (r: Outcome)
    requires Waiting(w, tmp, base) && out < tmp && !(tmp <= src) && Clear(w.talk, src, tmp)
    modifies w, w.log`lines, w.log`synced
    ensures w.Valid() && OthersIntact(old(w.tree), w.tree, w.item.id) && LogKept(w)
    ensures OnlyFrom(old(w.talk), w.talk, tmp) && ClaimTruth(r, w, src, tmp, out)
    ensures SeenFree(w, old(w.tree), old(w.clock), out + [base])
            && LosesHop(w, old(w.tree), old(w.clock) + 1, out + [base]) ==>
              r.Parked? && w.at == out + [base]
  {
    var cur := base;
    for tries := 0 to CLAIM_TRIES
      invariant Waiting(w, tmp, cur) && OthersIntact(old(w.tree), w.tree, w.item.id) && LogKept(w)
      invariant OnlyFrom(old(w.talk), w.talk, tmp) && Clear(w.talk, src, tmp)
      invariant if tries == 0 then w.tree == old(w.tree) && w.clock == old(w.clock) && cur == base
                else !(SeenFree(w, old(w.tree), old(w.clock), out + [base])
                       && LosesHop(w, old(w.tree), old(w.clock) + 1, out + [base]))
    {
      ghost var before := w.talk;
      var h, next := ClaimOnce(w, tmp, cur, base, out, want, src);
      OnlyFromOn(old(w.talk), before, w.talk, tmp);
      if h.Finished? { return h.r; }
      cur := next;
    }
    return Parked;
  }

  // The first attempt, straight to the destination.
  datatype First = Over(r: Outcome) | Stage

  predicate BareFailure(r: Reply) { r.Coded? && r.code == 1000 && |r.nested| == 0 }

  predicate NameTaken(r: Reply) { r.Coded? && r.code == 1003 }

  // At calls t and on: announced, moved, refused with a bare code, and the probe
  // of the destination unanswered.
  ghost predicate HidesLanding(w: World, t: nat) {
    && w.fate(t).luck.Whole? && w.Calm(t + 1) && w.fate(t + 1).yes && BareFailure(w.fate(t + 1).said)
    && !w.fate(t + 2).yes
  }

  // At calls t and on: announced, moved, the answer lost; the source is seen gone, and
  // the question whether it arrived goes unanswered.
  ghost predicate LosesArrival(w: World, t: nat) {
    && w.fate(t).luck.Whole? && w.Calm(t + 1) && w.fate(t + 1).yes && w.fate(t + 1).said.Lost?
    && w.fate(t + 3).yes && !w.fate(t + 4).yes
  }

  // At calls t and on: announced, and refused because the name is taken.
  ghost predicate Collides(w: World, t: nat) {
    w.fate(t).luck.Whole? && w.Calm(t + 1) && !w.fate(t + 1).yes && NameTaken(w.fate(t + 1).said)
  }

  // How the direct attempt leaves things.
  ghost predicate DirectEnd(f: First, at: Path, t: Talk, src: Path, out: Path, tmp: Path) {
    && Clear(t, src, tmp) && (at == src || at == out + [Base(src)])
    && match f
       case Over(r) => !r.Parked? && Settled(r, at, t, src, out, tmp)
       case Stage => if HiddenLanding(t, src, out + [Base(src)]) then at == out + [Base(src)]
                     else at == src && NoneHid(t, src, out + [Base(src)])
  }

  // A bare failure code: staged only if the name really is taken.
  method Refused(w: World, src: Path, out: Path, want: Ident, ghost asked: Talk, ghost tmp: Path) returns (f: First)
    requires w.Valid() && src in w.reserved && src != out + [Base(src)]
    requires asked == w.talk && asked.Then? && asked.last.Moved?
    requires w.at == if HidMove(asked, src, out + [Base(src)]) then out + [Base(src)] else src
    requires NoneHid(asked.before, src, out + [Base(src)]) && Clear(asked, src, tmp)
    modifies w`tree, w`clock, w`talk
    ensures w.Valid() && OthersIntact(old(w.tree), w.tree, w.item.id)
    ensures DirectEnd(f, w.at, w.talk, src, out, tmp)
    ensures !w.fate(old(w.clock)).yes ==> f.Over? && f.r.Failed?
  {
    var base, dest := Base(src), out + [Base(src)];
    NothingHidden(asked.before, src, dest);
    assert !HiddenLanding(asked, src, dest);
    var answered, there := w.Stat(dest);
    ProbesStayClear(asked, w.talk, src, tmp);
    if !answered || !there { return Over(Failed); }
    ghost var first := w.talk;
    AnsweredHides(first, src, dest);
    var srcAnswered, srcThere := w.Stat(src);
    ProbesStayClear(first, w.talk, src, tmp);
    if srcAnswered && !srcThere {
      AnsweredHides(w.talk, src, dest);
      var o := Arrived(w, dest, base, want);
      return Over(o);
    }
    return if want.isDir then Over(Failed) else Stage;
  }

  // Its answer was lost: the source is watched, then the destination looked at.
  method SettleDirect(w: World, src: Path, out: Path, want: Ident, polls: nat, ghost tmp: Path) returns (r: Outcome)
    requires w.Valid() && src in w.reserved && src != out + [Base(src)] && w.log.Announced(out + [Base(src)])
    requires (w.at == src || w.at == out + [Base(src)]) && NoneHid(w.talk, src, out + [Base(src)])
    requires Clear(w.talk, src, tmp)
    modifies w
    ensures w.Valid() && OthersIntact(old(w.tree), w.tree, w.item.id)
    ensures DirectEnd(Over(r), w.at, w.talk, src, out, tmp)
    ensures old(w.at) == out + [Base(src)] && w.fate(old(w.clock) + 1).yes && !w.fate(old(w.clock) + 2).yes ==>
              r.MovedBut? && w.at == out + [Base(src)]
  {
    var dest := out + [Base(src)];
    var gone := SourceLeaves(w, src, dest, polls);
    ProbesHideNothing(old(w.talk), w.talk, src, dest);
    ProbesStayClear(old(w.talk), w.talk, src, tmp);
    NothingHidden(w.talk, src, dest);
    if !gone { return Unsettled; }
    r := Arrived(w, dest, Base(src), want);
    NothingHidden(w.talk, src, dest);
  }

  // The direct move was not acknowledged.
  method AfterDirect(w: World, src: Path, out: Path, want: Ident, polls: nat, r: Reply, ghost tmp: Path)
    returns (f: First)
    requires w.Valid() && src in w.reserved && src != out + [Base(src)] && w.log.Announced(out + [Base(src)])
    requires w.talk.Then? && w.talk.last.Moved? && w.talk.last.from == src && w.talk.last.to == out + [Base(src)]
    requires w.talk.last.reply == r && !r.Ok?
    requires w.at == (if w.talk.last.took then out + [Base(src)] else src) && Clear(w.talk, src, tmp)
    requires w.talk.last.took ==> r.Lost? || MayHide(GenericCode, r)
    requires NoneHid(w.talk.before, src, out + [Base(src)])
    modifies w
    ensures w.Valid() && OthersIntact(old(w.tree), w.tree, w.item.id)
    ensures DirectEnd(f, w.at, w.talk, src, out, tmp)
    ensures BareFailure(r) && !w.fate(old(w.clock)).yes ==> f.Over? && f.r.Failed?
    ensures r.Coded? ==> w.at == old(w.at)
    ensures var t := old(w.clock);
      r.Lost? && old(w.at) == out + [Base(src)] && w.fate(t + 1).yes && !w.fate(t + 2).yes ==>
        f.Over? && f.r.MovedBut? && w.at == out + [Base(src)]
    ensures NameTaken(r) ==> f.Stage? && w.tree == old(w.tree) && w.clock == old(w.clock)
  {
    if OutcomeUnknown(r) {
      var o := SettleDirect(w, src, out, want, polls, tmp);
      return Over(o);
    }
    if WorthStaging(r) && !IsCollision(r) {
      f := Refused(w, src, out, want, w.talk, tmp);
      return;
    }
    NothingHidden(w.talk, src, out + [Base(src)]);
    return if WorthStaging(r) then Stage else Over(Failed);
  }

  method MoveDirect(w: World, src: Path, out: Path, want: Ident, polls: nat, ghost tmp: Path) returns (f: First)
    requires w.Valid() && w.at == src && Matches(w.item, want) && src in w.reserved && src != out + [Base(src)]
    requires NoneHid(w.talk, src, out + [Base(src)]) && Clear(w.talk, src, tmp) && out < tmp && !(tmp <= src)
    modifies w, w.log`lines, w.log`synced
    ensures w.Valid() && OthersIntact(old(w.tree), w.tree, w.item.id) && LogKept(w)
    ensures DirectEnd(f, w.at, w.talk, src, out, tmp)
    ensures HidesLanding(w, old(w.clock)) && out + [Base(src)] !in old(w.tree) ==>
              f.Over? && f.r.Failed? && w.at == out + [Base(src)]
    ensures LosesArrival(w, old(w.clock)) && out + [Base(src)] !in old(w.tree) ==>
              f.Over? && f.r.MovedBut? && w.at == out + [Base(src)]
    ensures Collides(w, old(w.clock)) ==>
              f.Stage? && w.at == src && w.tree == old(w.tree) && w.clock == old(w.clock) + 2
  {
    var dest := out + [Base(src)];
    NothingHidden(w.talk, src, dest);
    var ok := w.Announce(dest, [src]);
    if !ok { return Over(Failed); }
    var r, took := w.Move(src, out, GenericCode);
    if r.Ok? { return Over(Landed(Base(src))); }
    f := AfterDirect(w, src, out, want, polls, r, tmp);
  }

  // What a staged move starts from: the entry at its source, or already gone from
  // it behind a refusal.
  ghost predicate Ready(w: World, src: Path, out: Path, tmp: Path)
    reads w, w.log
  {
    && w.Valid() && src in w.reserved && tmp in w.reserved
    && out < tmp && !(tmp <= src) && src != out + [Base(src)] && Clear(w.talk, src, tmp)
    && if HiddenLanding(w.talk, src, out + [Base(src)]) then w.at == out + [Base(src)]
       else w.at == src && NoneHid(w.talk, src, out + [Base(src)])
  }

  // A move into the staging folder and its probe: unclear without effect and
  // without an answer.
  lemma StagingProbed(t: Talk, src: Path, dest: Path, tmp: Path)
    requires Probing(t) && t.before.Then? && t.before.last.Moved?
    requires t.before.last.from == src && t.before.last.to != dest && tmp < t.before.last.to && !(tmp <= src)
    ensures HiddenLanding(t, src, dest) == HiddenLanding(t.before.before, src, dest)
    ensures UnclearEnd(t, src, tmp) <==> Unanswered(t) && !t.before.last.took
  {
    AnsweredHides(t.before, src, dest);
  }

  // The move into staging failed: the folder may hold the only copy, whatever the
  // error said.
  method SettleStaging(w: World, src: Path, out: Path, tmp: Path) returns (r: Outcome)
    requires w.Valid() && tmp in w.reserved && out < tmp && !(tmp <= src) && src != out + [Base(src)]
    requires w.talk.Then? && w.talk.last.Moved? && w.talk.last.from == src && w.talk.last.to == tmp + [Base(src)]
    requires w.at == if w.talk.last.took then tmp + [Base(src)]
                     else if HiddenLanding(w.talk.before, src, out + [Base(src)]) then out + [Base(src)] else src
    requires w.talk.last.took ==> !HiddenLanding(w.talk.before, src, out + [Base(src)])
    modifies w`tree, w`clock, w`talk
    ensures w.Valid() && OthersIntact(old(w.tree), w.tree, w.item.id)
    ensures r.Failed? || r.Parked?
    ensures Settled(r, w.at, w.talk, src, out, tmp)
    ensures !w.fate(old(w.clock)).yes ==> r.Parked?
  {
    assert IsUnder(tmp + [Base(src)], w.reserved);
    assert |out + [Base(src)]| < |tmp + [Base(src)]|;
    var settled, there := w.Stat(tmp + [Base(src)]);
    StagingProbed(w.talk, src, out + [Base(src)], tmp);
    return if settled && !there then Failed else Parked;
  }

  method PrepareStaging(w: World, tmp: Path) returns (ok: bool)
    requires w.Valid()
    modifies w`clock, w.log`lines, w.log`synced
    ensures w.Valid() && LogKept(w) && (ok ==> w.log.Staged(tmp))
    ensures w.fate(old(w.clock)).yes && w.fate(old(w.clock) + 1).luck.Whole? ==> ok && w.clock == old(w.clock) + 2
  {
    ok := w.CreateFolder();
    if ok { ok := w.AnnounceStaging(tmp); }
  }

  // At call t the move into the folder meets nobody, and this.
  ghost predicate MeetsMove(w: World, t: nat, yes: bool, said: Reply) {
    w.Calm(t) && w.fate(t).yes == yes && w.fate(t).said == said
  }

  ghost predicate Prepares(w: World, t: nat) { w.fate(t).yes && w.fate(t + 1).luck.Whole? }

  // Stage: it waits in the folder.
  method MoveIntoStaging(w: World, src: Path, out: Path, tmp: Path) returns (f: First)
    requires Ready(w, src, out, tmp) && w.log.Staged(tmp)
    modifies w
    ensures w.Valid() && OthersIntact(old(w.tree), w.tree, w.item.id)
    ensures f.Stage? ==> Waiting(w, tmp, Base(src))
    ensures f.Stage? ==> Clear(w.talk, src, tmp) && NoneHid(w.talk, src, out + [Base(src)])
    ensures f.Over? ==> (f.r.Failed? || f.r.Parked?) && (w.at == old(w.at) || tmp < w.at)
                        && Settled(f.r, w.at, w.talk, src, out, tmp)
    ensures MeetsMove(w, old(w.clock), false, Lost) ==>
              w.at == old(w.at) && (w.fate(old(w.clock) + 1).yes || f == Over(Parked))
    ensures old(w.at) == src && MeetsMove(w, old(w.clock), true, Reply.Ok) ==> f.Stage? && w.clock == old(w.clock) + 1
    ensures MeetsMove(w, old(w.clock), true, Reply.Ok) && out + [Base(src)] !in old(w.tree) && f.Stage? ==>
              out + [Base(src)] !in w.tree
  {
    w.log.StagedAnnounces(tmp, tmp + [Base(src)]);
    assert IsUnder(src, w.reserved) && IsUnder(tmp + [Base(src)], w.reserved);
    var r, staged := w.Move(src, tmp, AnyCode);
    if r.Ok? { return Stage; }
    var o := SettleStaging(w, src, out, tmp);
    return Over(o);
  }

  method ClaimStaged(w: World, src: Path, out: Path, tmp: Path, want: Ident) returns (r: Outcome)
    requires Waiting(w, tmp, Base(src)) && out < tmp && !(tmp <= src) && src != out + [Base(src)]
    requires Clear(w.talk, src, tmp) && NoneHid(w.talk, src, out + [Base(src)])
    modifies w, w.log`lines, w.log`synced
    ensures w.Valid() && OthersIntact(old(w.tree), w.tree, w.item.id) && LogKept(w)
    ensures tmp < w.at || In(w.at, out)
    ensures Settled(r, w.at, w.talk, src, out, tmp)
    ensures SeenFree(w, old(w.tree), old(w.clock), out + [Base(src)])
            && LosesHop(w, old(w.tree), old(w.clock) + 1, out + [Base(src)]) ==>
              r.Parked? && w.at == out + [Base(src)]
  {
    r := ClaimFromStaging(w, tmp, Base(src), out, want, src);
    HiddenBefore(old(w.talk), w.talk, src, out + [Base(src)], tmp);
    NothingHidden(w.talk, src, out + [Base(src)]);
    if In(src, out) { InIs(src, out); }
  }

  // Through a hidden staging folder inside the destination. The entry may already
  // have left, behind a refusal.
  method StageAndClaim(w: World, src: Path, out: Path, tmp: Path, want: Ident) returns (r: Outcome)
    requires Ready(w, src, out, tmp)
    modifies w, w.log`lines, w.log`synced
    ensures w.Valid() && OthersIntact(old(w.tree), w.tree, w.item.id) && LogKept(w)
    ensures w.at == src || tmp < w.at || In(w.at, out)
    ensures Settled(r, w.at, w.talk, src, out, tmp)
    ensures var t := old(w.clock);
      Prepares(w, t) && old(w.at) == src && MeetsMove(w, t + 2, false, Lost) && !w.fate(t + 3).yes ==>
        r.Parked? && w.at == src
    ensures var t, dest := old(w.clock), out + [Base(src)];
      (Prepares(w, t) && old(w.at) == src && MeetsMove(w, t + 2, true, Reply.Ok)
       && SeenFree(w, old(w.tree), t + 3, dest) && LosesHop(w, old(w.tree), t + 4, dest)) ==>
        r.Parked? && w.at == dest
  {
    var ok := PrepareStaging(w, tmp);
    if !ok { return Failed; }
    var f := MoveIntoStaging(w, src, out, tmp);
    if f.Over? { return f.r; }
    r := ClaimStaged(w, src, out, tmp, want);
  }

  // moveViaFS. The staging folder's name is drawn at random. The report is true
  // exactly when the conversation was not misleading: no landing hidden behind a
  // refusal with one of its two probes unanswered, and no unanswered probe last
  // after a move into staging that took no effect or a final hop that did.
  method MoveViaFS(w: World, src: Path, out: Path, tmpName: string, want: Ident, polls: nat) returns (r: Outcome)
    requires w.Valid() && w.at == src && Matches(w.item, want) && w.talk == Silence
    requires src in w.reserved && out + [tmpName] in w.reserved
    requires src != out + [Base(src)] && !(out + [tmpName] <= src) && tmpName != Base(src)
    modifies w, w.log`lines, w.log`synced
    ensures w.Valid() && OthersIntact(old(w.tree), w.tree, w.item.id) && LogKept(w)
    ensures w.at == src || out + [tmpName] < w.at || In(w.at, out)
    ensures Truth(r, w.at, src, out + [tmpName], out, Base(src)) <==> !Misleading(w.talk, src, out, out + [tmpName])
    ensures Settled(r, w.at, w.talk, src, out, out + [tmpName])
    ensures var t, dest := old(w.clock), out + [Base(src)];
      SeenFree(w, old(w.tree), t, dest) ==>
        && (HidesLanding(w, t + 1) ==> r.Failed? && w.at == dest)
        && (LosesArrival(w, t + 1) ==> r.MovedBut? && w.at == dest)
        && (Collides(w, t + 1) && Prepares(w, t + 3) ==>
              && (MeetsMove(w, t + 5, false, Lost) && !w.fate(t + 6).yes ==> r.Parked? && w.at == src)
              && (MeetsMove(w, t + 5, true, Reply.Ok) ==>
                    SeenFree(w, old(w.tree), t + 6, dest) ==> LosesHop(w, old(w.tree), t + 7, dest) ==>
                      r.Parked? && w.at == dest))
  {
    ghost var tmp := out + [tmpName];
    var answered, taken := w.Stat(out + [Base(src)]);
    assert NoneHid(w.talk, src, out + [Base(src)]);
    NothingHidden(w.talk, src, out + [Base(src)]);
    assert tmp[|out|] == tmpName && (out + [Base(src)])[|out|] == Base(src);
    r := Failed;
    if answered {
      var f := Stage;
      if !taken { f := MoveDirect(w, src, out, want, polls, tmp); }
      if f.Over? { r := f.r; } else { r := StageAndClaim(w, src, out, out + [tmpName], want); }
    }
    SettledTruth(r, w.at, w.talk, src, out, tmp);
  }

  // ---------------------------------------------------------- failing runs

  function Plain(yes: bool, said: Reply): Choice { Choice(map[], yes, said, Whole) }

  lemma ItsPaths()
    ensures Base(["a", "f"]) == "f" && ["b"] + ["f"] == ["b", "f"] && ["b"] + ["tmp"] == ["b", "tmp"]
    ensures "f" != "tmp" && ["a", "f"] != ["b", "f"] && ["a", "f"][0] != ["b", "tmp"][0]
  {
    assert "a"[0] != "b"[0] && |"f"| != |"tmp"|;
  }

  // A file "a/f" on its way to "b", in a tree that holds nothing else.
  method OneFile(fate: nat -> Choice) returns (w: World)
    ensures fresh(w) && fresh(w.log) && w.Valid() && w.at == ["a", "f"] && w.talk == Silence
    ensures w.reserved == {["a", "f"], ["b", "tmp"]}
    ensures w.tree == map[["a", "f"] := w.item] && w.item == Entry(1, false, 0, 0)
    ensures w.fate == fate && w.clock == 0
  {
    var log := new Log();
    var item := Entry(1, false, 0, 0);
    w := new World(map[["a", "f"] := item], item, ["a", "f"], {["a", "f"], ["b", "tmp"]}, log, fate);
  }

  // Reported failed, although it landed.
  method LandsUnseen() returns (w: World, r: Outcome)
    ensures r.Failed? && w.at == ["b", "f"] && Misleading(w.talk, ["a", "f"], ["b"], ["b", "tmp"])
  {
    ItsPaths();
    var fate := (t: nat) => Plain(t != 3, if t == 2 then Coded(1000, []) else Reply.Ok);
    w := OneFile(fate);
    assert forall t: nat :: w.fate(t) == Plain(t != 3, if t == 2 then Coded(1000, []) else Reply.Ok);
    assert SeenFree(w, w.tree, 0, ["b", "f"]) && HidesLanding(w, 1);
    r := MoveViaFS(w, ["a", "f"], ["b"], "tmp", Ident(false, 0, 0), 0);
  }

  function Refusing(t: nat, last: nat): Choice {
    Plain(t != 2 && t != last, if t == 2 then Coded(1003, []) else if t + 1 == last then Lost else Reply.Ok)
  }

  // Reported parked, although it never left.
  method NeverStaged() returns (w: World, r: Outcome)
    ensures r.Parked? && w.at == ["a", "f"] && Misleading(w.talk, ["a", "f"], ["b"], ["b", "tmp"])
  {
    ItsPaths();
    w := OneFile((t: nat) => Refusing(t, 6).(yes := t != 2 && t != 5 && t != 6));
    assert forall t: nat :: w.fate(t) == Refusing(t, 6).(yes := t != 2 && t != 5 && t != 6);
    assert SeenFree(w, w.tree, 0, ["b", "f"]) && Collides(w, 1) && Prepares(w, 3) && MeetsMove(w, 5, false, Lost);
    r := MoveViaFS(w, ["a", "f"], ["b"], "tmp", Ident(false, 0, 0), 0);
  }

  // Reported parked, although it is in the destination.
  method HopUnseen() returns (w: World, r: Outcome)
    ensures r.Parked? && w.at == ["b", "f"] && Misleading(w.talk, ["a", "f"], ["b"], ["b", "tmp"])
  {
    ItsPaths();
    w := OneFile((t: nat) => Refusing(t, 9));
    assert forall t: nat :: w.fate(t) == Refusing(t, 9);
    assert SeenFree(w, w.tree, 0, ["b", "f"]) && Collides(w, 1) && Prepares(w, 3) && MeetsMove(w, 5, true, Reply.Ok);
    assert SeenFree(w, w.tree, 6, ["b", "f"]) && LosesHop(w, w.tree, 7, ["b", "f"]);
    r := MoveViaFS(w, ["a", "f"], ["b"], "tmp", Ident(false, 0, 0), 0);
  }

  // Reported moved, truly, but without the place: no outcome can name it.
  method ArrivalUnseen() returns (w: World, r: Outcome)
    ensures r.MovedBut? && w.at == ["b", "f"]
  {
    ItsPaths();
    w := OneFile((t: nat) => Plain(t != 5, if t == 2 then Lost else Reply.Ok));
    assert forall t: nat :: w.fate(t) == Plain(t != 5, if t == 2 then Lost else Reply.Ok);
    assert SeenFree(w, w.tree, 0, ["b", "f"]) && LosesArrival(w, 1);
    r := MoveViaFS(w, ["a", "f"], ["b"], "tmp", Ident(false, 0, 0), 0);
  }
}
