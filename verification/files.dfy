/** backup_file / restore_file over a filesystem modelled as a map from path
    to contents. `copyOk` says whether shutil.copy2 succeeds. A copy is taken
    to be all or nothing: when it raises, DCTimer.py catches the exception and
    the model assumes no partial or complete destination file is left behind,
    although copy2 (a copy followed by copystat) does not promise that. */
module Files {
  import opened Wrappers

  type Files = map<string, string>

  const BackupSuffix := ".dctimer.bak"

  /** Where the backup of `path` lives. */
  function BackupPath(path: string): string
  {
    path + BackupSuffix
  }

  /** `a` and `b` hold the same files everywhere outside `keys`. */
  ghost predicate AgreeExcept(a: Files, b: Files, keys: set<string>)
  {
    forall p :: p !in keys ==> (p in a <==> p in b) && (p in a ==> a[p] == b[p])
  }

  /** The filesystem after backup_file, and the backup path it returns. */
  datatype Saved = Saved(files: Files, backup: Option<string>)

  /** backup_file: an existing backup is kept as it is and its path returned;
      otherwise the file is copied beside itself, or None is returned when the
      file is missing or the copy fails. */
  function BackupFile(fs: Files, path: string, copyOk: bool): (r: Saved)
    ensures r.backup.Some? <==> BackupPath(path) in fs || (path in fs && copyOk)
    ensures r.backup.Some? ==> r.backup.value == BackupPath(path) && BackupPath(path) in r.files
    ensures BackupPath(path) in fs ==> r.files == fs
    ensures BackupPath(path) !in fs && r.backup.Some? ==> r.files[BackupPath(path)] == fs[path]
    ensures r.backup.None? ==> r.files == fs
    ensures AgreeExcept(fs, r.files, {BackupPath(path)})
  {
    var bp := BackupPath(path);
    if bp in fs then Saved(fs, Some(bp))
    else if path in fs && copyOk then Saved(fs[bp := fs[path]], Some(bp))
    else Saved(fs, None)
  }

  /** The filesystem after restore_file, and its boolean result. */
  datatype Restored = Restored(files: Files, ok: bool)

  /** restore_file: copy the backup over the file and delete the backup;
      without a backup, or when the copy fails, report False and change
      nothing. */
  function RestoreFile(fs: Files, path: string, copyOk: bool): (r: Restored)
    ensures r.ok <==> BackupPath(path) in fs && copyOk
    ensures !r.ok ==> r.files == fs
    ensures r.ok ==> path in r.files && r.files[path] == fs[BackupPath(path)]
    ensures r.ok ==> BackupPath(path) !in r.files
    ensures AgreeExcept(fs, r.files, {path, BackupPath(path)})
  {
    var bp := BackupPath(path);
    if bp in fs && copyOk then Restored(fs[path := fs[bp]] - {bp}, true)
    else Restored(fs, false)
  }

  /** A second backup_file before any restore keeps the first backup, even
      when the file itself has been rewritten in between. */
  lemma BackupTwiceKeepsFirst(fs: Files, path: string, contents: string, copyOk: bool, copyOk': bool)
    requires BackupFile(fs, path, copyOk).backup.Some?
    ensures var first := BackupFile(fs, path, copyOk);
            var second := BackupFile(first.files[path := contents], path, copyOk');
            second.backup == first.backup
            && second.files[BackupPath(path)] == first.files[BackupPath(path)]
  {
    assert BackupPath(path) != path by {
      assert |BackupPath(path)| > |path|;
    }
  }

  /** backup, overwrite, restore: the file gets its original contents back,
      the backup is gone, and the filesystem is exactly what it was. */
  lemma {:induction false} BackupRestoreRoundTrip(fs: Files, path: string, contents: string)
    requires path in fs && BackupPath(path) !in fs
    ensures var saved := BackupFile(fs, path, true);
            var back := RestoreFile(saved.files[path := contents], path, true);
            back.ok && back.files == fs
  {
    var bp := BackupPath(path);
    assert bp != path by {
      assert |bp| > |path|;
    }
    var saved := BackupFile(fs, path, true);
    var changed := saved.files[path := contents];
    var back := RestoreFile(changed, path, true);
    assert back.files.Keys == fs.Keys;
  }

  lemma AgreeExceptTrans(a: Files, b: Files, c: Files, k1: set<string>, k2: set<string>)
    requires AgreeExcept(a, b, k1) && AgreeExcept(b, c, k2)
    ensures AgreeExcept(a, c, k1 + k2)
  {
  }
}
