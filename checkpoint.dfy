/** Finding the checkpoint to resume training from: among the names of a
    directory listing, the one matching checkpoint_<digits>.pth.tar at its
    start with the largest iteration number. */
module Checkpoint {
  import opened Scores
  import opened Decimal

  const Prefix: string := "checkpoint_"
  const Suffix: string := ".pth.tar"

  /** The name is the prefix, one or more digits ending before index d,
      then the suffix, then anything. */
  predicate DigitsAt(name: string, d: int) {
    Prefix <= name && |Prefix| < d <= |name| && AllDigits(name[|Prefix|..d]) && Suffix <= name[d..]
  }

  /** re.match(r"checkpoint_(\d+)\.pth\.tar", name): the pattern is anchored
      at the start of the name only; the result is int of the digit group. */
  function MatchIter(name: string): Option<nat> {
    if !(Prefix <= name) then None
    else
      var rest := name[|Prefix|..];
      var d := DigitRun(rest);
      if d == 0 || !(Suffix <= rest[d..]) then None
      else
        Some(Value(rest[..d]))
  }

  /** A match is the prefix, a run of digits whose value is the iteration,
      then the suffix, then anything. */
  lemma MatchShape(name: string)
    ensures MatchIter(name).Some? ==>
      exists d :: DigitsAt(name, d) && MatchIter(name).value == Value(name[|Prefix|..d])
  {
    if MatchIter(name).Some? {
      var rest := name[|Prefix|..];
      var d := DigitRun(rest);
      assert name[|Prefix|..|Prefix| + d] == rest[..d] && name[|Prefix| + d..] == rest[d..];
      assert DigitsAt(name, |Prefix| + d);
    }
  }

  /** The name the trainer saves iteration n under, followed by anything,
      matches with iteration n. */
  lemma SavedNameMatches(n: nat, extra: string)
    ensures MatchIter(Prefix + Render(n) + Suffix + extra) == Some(n)
  {
    var digits, tail := Render(n), Suffix + extra;
    var name := Prefix + Render(n) + Suffix + extra;
    assert name == Prefix + (digits + tail);
    assert Prefix <= name;
    var rest := name[|Prefix|..];
    assert rest == digits + tail;
    RenderValue(n);
    assert !IsDigit(tail[0]);
    DigitRunOf(digits, tail);
    assert rest[|digits|..] == tail && Suffix <= tail;
    assert rest[..|digits|] == digits;
  }

  /** A trailing suffix does not stop a match; a name without digits does not match. */
  lemma MatchExamples()
    ensures MatchIter("checkpoint_7.pth.tar.bak") == Some(7)
    ensures MatchIter("checkpoint_best.pth.tar") == None
  {
    SavedNameMatches(7, ".bak");
    assert Prefix + Render(7) + Suffix + ".bak" == "checkpoint_7.pth.tar.bak";
    var rest := "checkpoint_best.pth.tar"[|Prefix|..];
    assert rest[0] == 'b';
  }

  /** os.path.join(folder, name) for a name without a separator. */
  function Join(folder: string, name: string): string {
    if folder == [] || folder[|folder| - 1] == '/' then folder + name else folder + "/" + name
  }

  /** The joined path is the folder, then the name, with exactly one
      separator before the name unless the folder is empty. */
  lemma JoinShape(folder: string, name: string)
    ensures var p := Join(folder, name);
      && |folder| + |name| <= |p| <= |folder| + 1 + |name|
      && folder <= p && p[|p| - |name|..] == name
      && (folder != [] ==> |p| > |name| && p[|p| - |name| - 1] == '/')
  {
    var p := Join(folder, name);
    if folder == [] || folder[|folder| - 1] == '/' {
      assert p == folder + name;
    } else {
      assert p == folder + "/" + name;
      assert p[|p| - |name| - 1] == '/';
    }
  }

  /** get_latest_checkpoint over the directory's listing (folderExists is
      os.path.exists): the largest iteration among matching names, and the
      path of the first name in listing order carrying it; (None, 0) when
      the folder is missing or no name matches with an iteration above 0. */
  method GetLatestCheckpoint(folder: string, folderExists: bool, listing: seq<string>)
    returns (bestFile: Option<string>, maxIter: nat)
    ensures !folderExists ==> bestFile == None && maxIter == 0
    ensures folderExists ==> forall i :: 0 <= i < |listing| && MatchIter(listing[i]).Some? ==>
      MatchIter(listing[i]).value <= maxIter
    ensures bestFile.None? <==> maxIter == 0
    ensures bestFile.Some? ==>
      exists i :: 0 <= i < |listing| && MatchIter(listing[i]) == Some(maxIter)
        && bestFile.value == Join(folder, listing[i])
        && forall j :: 0 <= j < i ==> MatchIter(listing[j]) != Some(maxIter)
  {
    if !folderExists {
      return None, 0;
    }
    maxIter := 0;
    bestFile := None;
    ghost var at := 0;
    for k := 0 to |listing|
      invariant forall i :: 0 <= i < k && MatchIter(listing[i]).Some? ==> MatchIter(listing[i]).value <= maxIter
      invariant bestFile.None? <==> maxIter == 0
      invariant bestFile.Some? ==>
        0 <= at < k && MatchIter(listing[at]) == Some(maxIter)
        && bestFile.value == Join(folder, listing[at])
        && forall j :: 0 <= j < at ==> MatchIter(listing[j]) != Some(maxIter)
    {
      var m := MatchIter(listing[k]);
      if m.Some? {
        var iterNum := m.value;
        if iterNum > maxIter {
          maxIter := iterNum;
          bestFile := Some(Join(folder, listing[k]));
          at := k;
        }
      }
    }
  }
}
