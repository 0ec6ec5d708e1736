/** `dsp_config_save` and `dsp_config_rollback` (dsp_config.c) as steps on the file system, each of which may fail. */
module ConfigFiles {
  type Document = string

  datatype File = Missing | Holds(document: Document)

  /** The configuration, and the files named after it with .tmp, .bak and .rejected. */
  datatype Files = Files(path: File, tmp: File, bak: File, rejected: File)

  /** Which documents startup accepts, and which a save for a given player accepts. */
  datatype Checks = Checks(valid: Document -> bool, accepted: Document -> bool)

  /** A document accepted for a player is one startup accepts. */
  ghost predicate Consistent(c: Checks) {
    forall d :: c.accepted(d) ==> c.valid(d)
  }

  predicate Good(c: Checks, f: File) {
    f.Holds? && c.valid(f.document)
  }

  /** `dsp_init` reads the configuration and falls back on the backup. */
  predicate Recoverable(c: Checks, fs: Files) {
    Good(c, fs.path) || Good(c, fs.bak)
  }

  /** Which operations of a save or rollback succeed, and what an interrupted write leaves in the .tmp file. */
  datatype Luck = Luck(
    opens: bool, junk: Document, writes: bool, loads: bool, cleans: bool,
    unlinks: bool, renamesOld: bool, renamesNew: bool, renamesBack: bool)

  const ALL_WELL := Luck(true, "", true, true, true, true, true, true, true)

  /** The states the disk goes through, the last one being where it is left. */
  datatype Result = Result(ok: bool, trace: seq<Files>)

  function After(states: seq<Files>, r: Result): Result {
    r.(trace := states + r.trace)
  }

  function Cleaned(fs: Files, luck: Luck): Files {
    if luck.cleans then fs.(tmp := Missing) else fs
  }

  function Save(c: Checks, fs: Files, json: Document, luck: Luck): (r: Result)
    ensures |r.trace| > 0
  {
    if !luck.opens then Result(false, [fs])
    else
      var s1 := fs.(tmp := Holds(luck.junk));
      if !luck.writes then Result(false, [fs, s1, Cleaned(s1, luck)])
      else
        var s2 := fs.(tmp := Holds(json));
        if !luck.loads || !c.accepted(json) then Result(false, [fs, s1, s2, Cleaned(s2, luck)])
        else After([fs, s1, s2], Install(if luck.unlinks then s2.(bak := Missing) else s2, luck))
  }

  /** From the removal of the old backup on. */
  function Install(fs: Files, luck: Luck): (r: Result)
    ensures |r.trace| > 0
  {
    if fs.path.Holds? && !luck.renamesOld then Result(false, [fs, Cleaned(fs, luck)])
    else
      var s := if fs.path.Holds? then fs.(path := Missing, bak := fs.path) else fs;
      if luck.renamesNew then Result(true, [fs, s, s.(path := s.tmp, tmp := Missing)])
      else
        var t := if s.bak.Holds? && luck.renamesBack then s.(path := s.bak, bak := Missing) else s;
        Result(false, [fs, s, t, Cleaned(t, luck)])
  }

  function Rollback(fs: Files, luck: Luck): (r: Result)
    ensures |r.trace| > 0
  {
    if fs.bak.Missing? then Result(false, [fs])
    else
      var s1 := if luck.unlinks then fs.(rejected := Missing) else fs;
      if s1.path.Holds? && !luck.renamesOld then Result(false, [fs, s1])
      else
        var s2 := if s1.path.Holds? then s1.(path := Missing, rejected := s1.path) else s1;
        if luck.renamesNew then Result(true, [fs, s1, s2, s2.(path := s2.bak, bak := Missing)])
        else
          Result(false, [fs, s1, s2,
            if s2.rejected.Holds? && luck.renamesBack then s2.(path := s2.rejected, rejected := Missing) else s2])
  }

  function Left(r: Result): Files
    requires |r.trace| > 0
  {
    r.trace[|r.trace| - 1]
  }

  ghost predicate Survives(c: Checks, r: Result) {
    forall k: nat | k < |r.trace| :: Recoverable(c, r.trace[k])
  }

  // ---------------------------------------------------------------- crashes

  /** A save started with a good configuration can be interrupted anywhere. */
  lemma SaveSurvives(c: Checks, fs: Files, json: Document, luck: Luck)
    requires Consistent(c) && Good(c, fs.path)
    ensures Survives(c, Save(c, fs, json, luck))
  {}

  /** Past validation, with the old backup removed, that is also necessary. */
  lemma SaveSurvivesIff(c: Checks, fs: Files, json: Document, luck: Luck)
    requires Consistent(c) && luck.opens && luck.writes && luck.loads && c.accepted(json) && luck.unlinks
    ensures Survives(c, Save(c, fs, json, luck)) <==> Good(c, fs.path)
  {
    var r := Save(c, fs, json, luck);
    assert r.trace[3] == fs.(tmp := Holds(json), bak := Missing);
  }

  /**
   * The case the condition shuts out: with only the backup good, a crash in the middle leaves nothing to start from.
   */
  lemma SaveLosesBackup(c: Checks, previous: Document, json: Document)
    requires Consistent(c) && c.valid(previous) && c.accepted(json)
    ensures
      var fs := Files(Missing, Missing, Holds(previous), Missing);
      Recoverable(c, fs) && !Survives(c, Save(c, fs, json, ALL_WELL))
  {
    SaveSurvivesIff(c, Files(Missing, Missing, Holds(previous), Missing), json, ALL_WELL);
  }

  /** A rollback to a good backup can be interrupted anywhere. */
  lemma RollbackSurvives(c: Checks, fs: Files, luck: Luck)
    requires Good(c, fs.bak)
    ensures Survives(c, Rollback(fs, luck))
  {}

  /** It takes the backup as it finds it: once the configuration has been moved away, only a good backup helps. */
  lemma RollbackSurvivesIff(c: Checks, fs: Files, luck: Luck)
    requires Recoverable(c, fs) && fs.bak.Holds? && (fs.path.Holds? ==> luck.renamesOld)
    ensures Survives(c, Rollback(fs, luck)) <==> Good(c, fs.bak)
  {
    var r := Rollback(fs, luck);
    assert r.trace[2].path == Missing && r.trace[2].bak == fs.bak;
  }

  /** The case that shuts out: a backup that is no good takes the place of a configuration that is. */
  lemma RollbackToBadBackup(c: Checks, working: Document, broken: Document)
    requires c.valid(working) && !c.valid(broken)
    ensures
      var fs := Files(Holds(working), Missing, Holds(broken), Missing);
      Recoverable(c, fs) && Rollback(fs, ALL_WELL).ok && !Survives(c, Rollback(fs, ALL_WELL))
      && Left(Rollback(fs, ALL_WELL)).path == Holds(broken)
  {
    RollbackSurvivesIff(c, Files(Holds(working), Missing, Holds(broken), Missing), ALL_WELL);
  }

  // ---------------------------------------------------------------- outcomes

  /** A save reports success just when the new document is in place, with the old one, if any, behind it. */
  lemma SaveInstalls(c: Checks, fs: Files, json: Document, luck: Luck)
    ensures
      var r := Save(c, fs, json, luck);
      (r.ok ==> c.accepted(json) && Left(r).path == Holds(json) && Left(r).tmp == Missing
                && (fs.path.Holds? ==> Left(r).bak == fs.path))
      && (!r.ok && fs.path.Holds? ==> Left(r).path == fs.path || (Left(r).path == Missing && Left(r).bak == fs.path))
      && (!r.ok && fs.path.Missing? ==> Left(r).path == Missing || Left(r).path == fs.bak)
      && Left(r).rejected == fs.rejected
  {}

  /** A save succeeds just when the document can be written and is accepted, and the renames succeed. */
  lemma SaveSucceedsIff(c: Checks, fs: Files, json: Document, luck: Luck)
    ensures
      Save(c, fs, json, luck).ok
      <==> luck.opens && luck.writes && luck.loads && c.accepted(json) && (fs.path.Holds? ==> luck.renamesOld)
           && luck.renamesNew
  {}

  /** The temporary file is gone after a save, unless it could not be removed. */
  lemma SaveCleansUp(c: Checks, fs: Files, json: Document, luck: Luck)
    ensures
      var r := Save(c, fs, json, luck);
      luck.opens ==> Left(r).tmp == Missing || (!r.ok && !luck.cleans)
  {}

  /**
   * A rollback succeeds just when there is a backup and the renames succeed; then the backup is in place and the
   * configuration before it, if any, is kept aside; otherwise both are where they were, or the configuration is aside.
   */
  lemma RollbackInstalls(c: Checks, fs: Files, luck: Luck)
    ensures
      var r := Rollback(fs, luck);
      && (r.ok <==> fs.bak.Holds? && (fs.path.Holds? ==> luck.renamesOld) && luck.renamesNew)
      && (r.ok ==> Left(r).path == fs.bak && Left(r).bak == Missing)
      && (r.ok ==>
            Left(r).rejected == if fs.path.Holds? then fs.path else if luck.unlinks then Missing else fs.rejected)
      && (!r.ok ==> Left(r).bak == fs.bak && (Left(r).path == fs.path || Left(r).rejected == fs.path))
      && Left(r).tmp == fs.tmp
  {}

  /** A save whose new document cannot be moved into place moves the old one back, or leaves it in the backup. */
  lemma SaveUndone(c: Checks, fs: Files, json: Document, luck: Luck)
    requires luck.opens && luck.writes && luck.loads && c.accepted(json) && luck.renamesOld && !luck.renamesNew
    ensures
      var t := Left(Save(c, fs, json, luck));
      && (fs.path.Holds? ==>
            if luck.renamesBack then t.path == fs.path && t.bak == Missing else t.path == Missing && t.bak == fs.path)
      && (fs.path.Missing? && (luck.unlinks || fs.bak.Missing?) ==> t.path == Missing && t.bak == Missing)
      && (fs.path.Missing? && !luck.unlinks && fs.bak.Holds? ==>
            if luck.renamesBack then t.path == fs.bak && t.bak == Missing else t.path == Missing && t.bak == fs.bak)
  {}

  /** A rollback whose backup cannot be moved into place moves the configuration back, or leaves it aside. */
  lemma RollbackUndone(c: Checks, fs: Files, luck: Luck)
    requires fs.bak.Holds? && luck.renamesOld && !luck.renamesNew
    ensures
      var t := Left(Rollback(fs, luck));
      && t.bak == fs.bak
      && (fs.path.Holds? ==>
            if luck.renamesBack then t.path == fs.path && t.rejected == Missing
            else t.path == Missing && t.rejected == fs.path)
      && (fs.path.Missing? && (luck.unlinks || fs.rejected.Missing?) ==> t.path == Missing && t.rejected == Missing)
      && (fs.path.Missing? && !luck.unlinks && fs.rejected.Holds? ==>
            if luck.renamesBack then t.path == fs.rejected && t.rejected == Missing
            else t.path == Missing && t.rejected == fs.rejected)
  {}

  /** A rejected document changes neither the configuration nor the backup, at any moment. */
  lemma RejectedDocument(c: Checks, fs: Files, json: Document, luck: Luck)
    requires !c.accepted(json)
    ensures
      var r := Save(c, fs, json, luck);
      !r.ok && forall k: nat | k < |r.trace| :: r.trace[k].path == fs.path && r.trace[k].bak == fs.bak
  {}

  /** A successful save and a successful rollback after it put the old document back and keep the new one aside. */
  lemma SaveThenRollback(c: Checks, fs: Files, json: Document, luck: Luck, later: Luck)
    requires fs.path.Holds? && Save(c, fs, json, luck).ok
    ensures
      var r := Rollback(Left(Save(c, fs, json, luck)), later);
      r.ok <==> later.renamesOld && later.renamesNew
    ensures
      var r := Rollback(Left(Save(c, fs, json, luck)), later);
      r.ok ==> Left(r).path == fs.path && Left(r).rejected == Holds(json) && Left(r).bak == Missing
  {
    SaveInstalls(c, fs, json, luck);
  }
}
