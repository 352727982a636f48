/** The version string of the `firecardano` binary: the version, followed
    by a parenthesised list of labels for the short commit and the build date
    when either is known. The build-time `commit`, `version` and `date`
    values are parameters. */
module FireCardano {
  import opened Text

  const ShortCommitLength: nat := 7

  /** The labels `versionString` collects: one for a commit of at least
      seven characters, one for a non-empty date, commit first. */
  function Labels(commit: string, date: string): (labels: seq<string>)
    ensures |labels| == (if |commit| >= ShortCommitLength then 1 else 0) + (if date != "" then 1 else 0)
    ensures |commit| >= ShortCommitLength ==> labels[0] == "Commit " + commit[..ShortCommitLength]
    ensures date != "" ==> labels[|labels| - 1] == "Built " + date
  {
    (if |commit| >= ShortCommitLength then ["Commit " + commit[..ShortCommitLength]] else [])
      + (if date != "" then ["Built " + date] else [])
  }

  /** `versionString`. */
  function VersionString(commit: string, version: string, date: string): (s: string)
    ensures version <= s
    ensures s == version <==> |commit| < ShortCommitLength && date == ""
  {
    var labels := Labels(commit, date);
    if labels == [] then version else version + " (" + Join(labels, ", ") + ")"
  }

  /** The four shapes the version string takes. */
  lemma VersionStringCases(commit: string, version: string, date: string)
    ensures |commit| < ShortCommitLength && date == "" ==>
      VersionString(commit, version, date) == version
    ensures |commit| >= ShortCommitLength && date == "" ==>
      VersionString(commit, version, date) == version + " (Commit " + commit[..ShortCommitLength] + ")"
    ensures |commit| < ShortCommitLength && date != "" ==>
      VersionString(commit, version, date) == version + " (Built " + date + ")"
    ensures |commit| >= ShortCommitLength && date != "" ==>
      VersionString(commit, version, date)
        == version + " (Commit " + commit[..ShortCommitLength] + ", Built " + date + ")"
  {
    var labels := Labels(commit, date);
    if |commit| >= ShortCommitLength && date != "" {
      assert labels == ["Commit " + commit[..ShortCommitLength], "Built " + date];
      assert labels[1..] == ["Built " + date];
      assert Join(labels[1..], ", ") == "Built " + date;
      assert Join(labels, ", ") == "Commit " + commit[..ShortCommitLength] + ", " + "Built " + date;
    } else if |commit| >= ShortCommitLength {
      assert labels == ["Commit " + commit[..ShortCommitLength]];
    } else if date != "" {
      assert labels == ["Built " + date];
    }
  }

  /** Only the first seven characters of the commit ever appear: two
      commits that share them give the same version string. */
  lemma CommitTruncated(commit1: string, commit2: string, version: string, date: string)
    requires |commit1| >= ShortCommitLength && |commit2| >= ShortCommitLength
    requires commit1[..ShortCommitLength] == commit2[..ShortCommitLength]
    ensures VersionString(commit1, version, date) == VersionString(commit2, version, date)
  {
  }
}
