/** The two operations as they run on a disk. */
module ConfigDisk {
  import opened ConfigFiles

  class Disk {
    var path: File
    var tmp: File
    var bak: File
    var rejected: File
    ghost var history: seq<Files>    // every state a crash could leave behind

    function View(): Files
      reads this
    {
      Files(path, tmp, bak, rejected)
    }

    constructor (fs: Files)
      ensures View() == fs && history == []
    {
      path, tmp, bak, rejected := fs.path, fs.tmp, fs.bak, fs.rejected;
      history := [];
    }

    /** The state between two operations. */
    ghost method Reached()
      modifies `history
      ensures history == old(history) + [View()]
    {
      history := history + [View()];
    }

    /** `dsp_config_save`, past its checks of the arguments */
    method Save(c: Checks, json: Document, luck: Luck) returns (ok: bool)
      modifies this
      ensures ok == old(ConfigFiles.Save(c, View(), json, luck)).ok
      ensures View() == Left(old(ConfigFiles.Save(c, View(), json, luck)))
      ensures history == old(history) + old(ConfigFiles.Save(c, View(), json, luck)).trace
    {
      hide ConfigFiles.Install;
      Reached();
      if !luck.opens {
        return false;
      }
      tmp := Holds(luck.junk);
      Reached();
      if !luck.writes {
        Clean(luck);
        return false;
      }
      tmp := Holds(json);
      Reached();
      if !luck.loads || !c.accepted(json) {
        Clean(luck);
        return false;
      }
      if luck.unlinks {
        bak := Missing;
      }
      ok := Install(luck);
    }

    method Install(luck: Luck) returns (ok: bool)
      modifies this
      ensures ok == old(ConfigFiles.Install(View(), luck)).ok
      ensures View() == Left(old(ConfigFiles.Install(View(), luck)))
      ensures history == old(history) + old(ConfigFiles.Install(View(), luck)).trace
    {
      Reached();
      if path.Holds? {
        if !luck.renamesOld {
          Clean(luck);
          return false;
        }
        path, bak := Missing, path;
      }
      Reached();
      if !luck.renamesNew {
        if bak.Holds? && luck.renamesBack {
          path, bak := bak, Missing;
        }
        Reached();
        Clean(luck);
        return false;
      }
      path, tmp := tmp, Missing;
      Reached();
      return true;
    }

    method Clean(luck: Luck)
      modifies `tmp, `history
      ensures View() == old(Cleaned(View(), luck)) && history == old(history) + [View()]
    {
      if luck.cleans {
        tmp := Missing;
      }
      Reached();
    }

    /** `dsp_config_rollback` */
    method Rollback(luck: Luck) returns (ok: bool)
      modifies this
      ensures ok == old(ConfigFiles.Rollback(View(), luck)).ok
      ensures View() == Left(old(ConfigFiles.Rollback(View(), luck)))
      ensures history == old(history) + old(ConfigFiles.Rollback(View(), luck)).trace
    {
      Reached();
      if bak.Missing? {
        return false;
      }
      if luck.unlinks {
        rejected := Missing;
      }
      Reached();
      if path.Holds? {
        if !luck.renamesOld {
          return false;
        }
        path, rejected := Missing, path;
      }
      Reached();
      if !luck.renamesNew {
        if rejected.Holds? && luck.renamesBack {
          path, rejected := rejected, Missing;
        }
        Reached();
        return false;
      }
      path, bak := bak, Missing;
      Reached();
      return true;
    }
  }
}
