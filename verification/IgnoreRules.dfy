/** The path filter: the collector's rules and the kernel's hard-wired ones.

    filepath.Clean is a parameter; what is proved holds whatever it does, except
    where a path is required to be unchanged by it. */
module IgnoreRules {
  import opened Text

  /** The rule itself or a path beneath it. */
  predicate Matches(rule: string, path: string) {
    path == rule || rule + "/" <= path
  }

  predicate Covered(rules: seq<string>, path: string) {
    exists i | 0 <= i < |rules| :: Matches(rules[i], path)
  }

  /** The segments of a path: strings.Split(path, "/"). */
  function Segments(path: string): (r: seq<string>)
    ensures |r| >= 1
  {
    if path == "" then [""]
    else
      var rest := Segments(path[1..]);
      if path[0] == '/' then [""] + rest else [[path[0]] + rest[0]] + rest[1..]
  }

  /** A rule matches whole segments: "/proc" covers "/proc/1", never "/procession". */
  lemma {:induction false} MatchesIsSegmentPrefix(rule: string, path: string)
    ensures Matches(rule, path) <==> Segments(rule) <= Segments(path)
  {
    if rule == "" {
      if path != "" && path[0] == '/' {
        assert "" + "/" <= path;
      } else if path != "" {
        assert Segments(path)[0] != "";
      }
    } else if path != "" && rule[0] == path[0] {
      var r, p := rule[1..], path[1..];
      MatchesIsSegmentPrefix(r, p);
      assert rule == [rule[0]] + r && path == [path[0]] + p;
      assert rule + "/" == [rule[0]] + (r + "/");
      assert rule + "/" <= path <==> r + "/" <= p;
      assert Segments(rule) <= Segments(path) <==> Segments(r) <= Segments(p) by {
        HeadSegments(rule[0], r, p);
      }
    } else if path != "" {
      assert rule[0] != path[0];
      assert !(rule + "/" <= path) by { assert (rule + "/")[0] == rule[0]; }
      assert Segments(rule)[0] != Segments(path)[0] by {
        if rule[0] != '/' && path[0] != '/' {
          assert Segments(rule)[0][0] == rule[0] && Segments(path)[0][0] == path[0];
        }
      }
    } else {
      assert Segments(rule)[0] != "" || |Segments(rule)| > 1;
    }
  }

  lemma ConsPrefix<T>(x: T, y: T, a: seq<T>, b: seq<T>)
    ensures [x] + a <= [y] + b <==> x == y && a <= b
  {
    assert ([x] + a)[1..] == a && ([y] + b)[1..] == b;
    if a <= b && x == y {
      assert ([y] + b)[..|a| + 1] == [y] + b[..|a|];
    }
    if [x] + a <= [y] + b {
      assert ([y] + b)[0] == ([x] + a)[0];
      assert b[..|a|] == ([y] + b)[1..|a| + 1] == ([x] + a)[1..];
    }
  }

  lemma HeadSegments(c: char, r: string, p: string)
    ensures Segments([c] + r) <= Segments([c] + p) <==> Segments(r) <= Segments(p)
  {
    var sr, sp := Segments(r), Segments(p);
    assert ([c] + r)[1..] == r && ([c] + p)[1..] == p;
    if c == '/' {
      ConsPrefix("", "", sr, sp);
    } else {
      assert sr == [sr[0]] + sr[1..] && sp == [sp[0]] + sp[1..];
      ConsPrefix([c] + sr[0], [c] + sp[0], sr[1..], sp[1..]);
      ConsPrefix(sr[0], sp[0], sr[1..], sp[1..]);
      assert ([c] + sr[0])[1..] == sr[0] && ([c] + sp[0])[1..] == sp[0];
    }
  }

  method ShouldIgnorePath(rules: seq<string>, path: string, clean: string -> string) returns (ignore: bool)
    ensures ignore <==> path != "" && Covered(rules, clean(path))
  {
    if path == "" {
      return false;
    }
    var normalized := clean(path);
    for i := 0 to |rules|
      invariant !Covered(rules[..i], normalized)
    {
      if Matches(rules[i], normalized) {
        return true;
      }
    }
    assert rules[..|rules|] == rules;
    return false;
  }

  // ---- normalisation ----

  /** The rule an entry of the configured list stands for; blank entries stand for none. */
  function RuleOf(entry: string, clean: string -> string): Option<string> {
    if TrimSpace(entry) == "" then None else Some(clean(TrimSpace(entry)))
  }

  /** The cleaned rules, with repetitions. */
  function Cleaned(paths: seq<string>, clean: string -> string): seq<string> {
    if paths == [] then [] else
      var before := Cleaned(paths[..|paths| - 1], clean);
      var rule := RuleOf(paths[|paths| - 1], clean);
      if rule.None? then before else before + [rule.value]
  }

  /** Every element once, in the order of first occurrence. */
  function Dedup(xs: seq<string>): seq<string> {
    if xs == [] then [] else
      var before := Dedup(xs[..|xs| - 1]);
      if xs[|xs| - 1] in before then before else before + [xs[|xs| - 1]]
  }

  method NormalizeIgnoreRules(paths: seq<string>, clean: string -> string) returns (out: seq<string>)
    ensures out == Dedup(Cleaned(paths, clean))
  {
    out := [];
    var seen: set<string> := {};
    for i := 0 to |paths|
      invariant out == Dedup(Cleaned(paths[..i], clean))
      invariant forall p :: p in seen <==> p in out
    {
      assert paths[..i + 1][..i] == paths[..i];
      var path := TrimSpace(paths[i]);
      if path == "" {
        continue;
      }
      path := clean(path);
      assert (Cleaned(paths[..i], clean) + [path])[..|Cleaned(paths[..i], clean)|] == Cleaned(paths[..i], clean);
      if path in seen {
        continue;
      }
      seen := seen + {path};
      out := out + [path];
    }
    assert paths[..|paths|] == paths;
  }

  lemma {:induction false} DedupMembers(xs: seq<string>, x: string)
    ensures x in Dedup(xs) <==> x in xs
  {
    if xs != [] {
      assert xs == xs[..|xs| - 1] + [xs[|xs| - 1]];
      DedupMembers(xs[..|xs| - 1], x);
      DedupMembers(xs[..|xs| - 1], xs[|xs| - 1]);
    }
  }

  lemma {:induction false} DedupDistinct(xs: seq<string>)
    ensures forall i, j | 0 <= i < j < |Dedup(xs)| :: Dedup(xs)[i] != Dedup(xs)[j]
  {
    if xs != [] {
      DedupDistinct(xs[..|xs| - 1]);
    }
  }

  predicate Yields(entry: string, clean: string -> string, r: string) { RuleOf(entry, clean) == Some(r) }

  lemma {:induction false} CleanedMembers(paths: seq<string>, clean: string -> string, r: string)
    ensures r in Cleaned(paths, clean) <==> exists i | 0 <= i < |paths| :: Yields(paths[i], clean, r)
  {
    if paths != [] {
      var n := |paths| - 1;
      var before := paths[..n];
      CleanedMembers(before, clean, r);
      assert forall i | 0 <= i < n :: before[i] == paths[i];
      assert Yields(paths[n], clean, r) ==> Cleaned(paths, clean)[|Cleaned(before, clean)|] == r;
    }
  }

  /** The configured rule list, read directly: some non-blank entry, trimmed and
      cleaned, covers the path. */
  ghost predicate CoveredByList(paths: seq<string>, clean: string -> string, path: string) {
    exists i | 0 <= i < |paths| :: EntryCovers(paths[i], clean, path)
  }

  predicate EntryCovers(entry: string, clean: string -> string, path: string) {
    !Blank(entry) && Matches(clean(TrimSpace(entry)), path)
  }

  /** Normalising and deduplicating the rules changes no verdict. */
  lemma NormalizationKeepsVerdicts(paths: seq<string>, clean: string -> string, path: string)
    ensures Covered(Dedup(Cleaned(paths, clean)), path) <==> CoveredByList(paths, clean, path)
  {
    var rules := Dedup(Cleaned(paths, clean));
    forall i | 0 <= i < |paths|
      ensures EntryCovers(paths[i], clean, path) <==>
              RuleOf(paths[i], clean).Some? && Matches(RuleOf(paths[i], clean).value, path)
    {
      TrimSpaceKeeps(paths[i]);
    }
    if Covered(rules, path) {
      var i :| 0 <= i < |rules| && Matches(rules[i], path);
      DedupMembers(Cleaned(paths, clean), rules[i]);
      CleanedMembers(paths, clean, rules[i]);
    }
    if CoveredByList(paths, clean, path) {
      var i :| 0 <= i < |paths| && EntryCovers(paths[i], clean, path);
      var r := RuleOf(paths[i], clean).value;
      CleanedMembers(paths, clean, r);
      DedupMembers(Cleaned(paths, clean), r);
      var k :| 0 <= k < |rules| && rules[k] == r;
    }
  }

  const DEFAULT_IGNORE_PATHS :=
    ["/proc", "/sys", "/dev", "/var/cache/apt", "/var/cache/dnf", "/var/cache/pacman"]

  lemma PlainEntry(rule: string, clean: string -> string, path: string)
    requires rule != "" && rule[0] == '/' && !IsSpace(rule[|rule| - 1]) && clean(rule) == rule
    ensures EntryCovers(rule, clean, path) <==> Matches(rule, path)
  {
    TrimAround("", rule, "");
    assert "" + rule + "" == rule;
  }

  lemma PlainEntries(rules: seq<string>, clean: string -> string, path: string)
    requires forall r | r in rules :: r != "" && r[0] == '/' && !IsSpace(r[|r| - 1]) && clean(r) == r
    ensures CoveredByList(rules, clean, path) <==> Covered(rules, path)
  {
    forall i | 0 <= i < |rules| ensures EntryCovers(rules[i], clean, path) <==> Matches(rules[i], path) {
      PlainEntry(rules[i], clean, path);
    }
  }

  lemma CoveredBySix(path: string)
    ensures Covered(DEFAULT_IGNORE_PATHS, path) <==>
            || Matches("/proc", path) || Matches("/sys", path) || Matches("/dev", path)
            || Matches("/var/cache/apt", path) || Matches("/var/cache/dnf", path)
            || Matches("/var/cache/pacman", path)
  {
    var six := DEFAULT_IGNORE_PATHS;
    assert six[0] == "/proc" && six[1] == "/sys" && six[2] == "/dev";
    assert six[3] == "/var/cache/apt" && six[4] == "/var/cache/dnf" && six[5] == "/var/cache/pacman";
  }

  /** The six built-in rules, where cleaning leaves them alone. */
  lemma BuiltInRules(clean: string -> string, path: string)
    requires forall r | r in DEFAULT_IGNORE_PATHS :: clean(r) == r
    ensures CoveredByList(DEFAULT_IGNORE_PATHS, clean, path) <==>
            || Matches("/proc", path) || Matches("/sys", path) || Matches("/dev", path)
            || Matches("/var/cache/apt", path) || Matches("/var/cache/dnf", path)
            || Matches("/var/cache/pacman", path)
  {
    forall r | r in DEFAULT_IGNORE_PATHS ensures r != "" && r[0] == '/' && !IsSpace(r[|r| - 1]) {}
    PlainEntries(DEFAULT_IGNORE_PATHS, clean, path);
    CoveredBySix(path);
  }

  method NewIgnoreRules(extra: seq<string>, clean: string -> string) returns (rules: seq<string>)
    ensures rules == Dedup(Cleaned(DEFAULT_IGNORE_PATHS + extra, clean))
  {
    rules := NormalizeIgnoreRules(DEFAULT_IGNORE_PATHS + extra, clean);
  }

  /** Configured rules add to the built-in ones and cannot take any away. */
  lemma ExtraRulesOnlyAdd(extra: seq<string>, clean: string -> string, path: string)
    ensures Covered(Dedup(Cleaned(DEFAULT_IGNORE_PATHS + extra, clean)), path) <==>
            CoveredByList(DEFAULT_IGNORE_PATHS, clean, path) || CoveredByList(extra, clean, path)
  {
    var all := DEFAULT_IGNORE_PATHS + extra;
    var n := |DEFAULT_IGNORE_PATHS|;
    NormalizationKeepsVerdicts(all, clean, path);
    assert forall i | 0 <= i < n :: all[i] == DEFAULT_IGNORE_PATHS[i];
    assert forall i | 0 <= i < |extra| :: all[n + i] == extra[i];
  }

  // ---- the kernel's filter ----

  const KERNEL_RULES := ["/proc", "/sys", "/dev"]

  predicate PathBoundary(c: char) { c == '\0' || c == '/' }

  predicate PathIgnoredPrefix(prefix: seq<char>)
    requires |prefix| == 7
  {
    && prefix[0] == '/'
    && (|| (prefix[1] == 'p' && prefix[2] == 'r' && prefix[3] == 'o' && prefix[4] == 'c' && PathBoundary(prefix[5]))
        || (prefix[1] == 's' && prefix[2] == 'y' && prefix[3] == 's' && PathBoundary(prefix[4]))
        || (prefix[1] == 'd' && prefix[2] == 'e' && prefix[3] == 'v' && PathBoundary(prefix[4])))
  }

  /** What a 7-byte read of a C string leaves in a zeroed buffer. */
  function UserPrefix(path: string): seq<char> {
    seq(7, i => if 0 <= i < 6 && i < |path| then path[i] else '\0')
  }

  /** A seven-byte look at the path is enough to apply the three rules. */
  lemma KernelFilterIsThreeRules(path: string)
    requires '\0' !in path
    ensures PathIgnoredPrefix(UserPrefix(path)) <==> Covered(KERNEL_RULES, path)
    ensures Covered(KERNEL_RULES, path) <==>
            || path == "/proc" || "/proc/" <= path || path == "/sys" || "/sys/" <= path
            || path == "/dev" || "/dev/" <= path
  {
    assert "/proc" + "/" == "/proc/" && "/sys" + "/" == "/sys/" && "/dev" + "/" == "/dev/";
    var b := UserPrefix(path);
    assert forall i | 0 <= i < 6 :: b[i] == '\0' <==> i >= |path|;
    RuleByCharacters("/proc", path);
    RuleByCharacters("/sys", path);
    RuleByCharacters("/dev", path);
    assert KERNEL_RULES[0] == "/proc" && KERNEL_RULES[1] == "/sys" && KERNEL_RULES[2] == "/dev";
  }

  lemma RuleByCharacters(rule: string, path: string)
    ensures Matches(rule, path) <==>
            && |path| >= |rule|
            && (forall i | 0 <= i < |rule| :: path[i] == rule[i])
            && (|path| > |rule| ==> path[|rule|] == '/')
  {
    if |path| > |rule| && (forall i | 0 <= i < |rule| :: path[i] == rule[i]) && path[|rule|] == '/' {
      assert forall i | 0 <= i < |rule + "/"| :: (rule + "/")[i] == path[i];
    }
    if rule + "/" <= path {
      assert forall i | 0 <= i < |rule| :: (rule + "/")[i] == path[i];
      assert (rule + "/")[|rule|] == path[|rule|];
    }
  }

  /** On a path that cleaning leaves alone, kernel and collector agree about the
      three directories the kernel knows. */
  lemma KernelAgreesOnCleanPaths(path: string, clean: string -> string)
    requires '\0' !in path && path != "" && clean(path) == path
    ensures PathIgnoredPrefix(UserPrefix(path)) <==> path != "" && Covered(KERNEL_RULES, clean(path))
  {
    KernelFilterIsThreeRules(path);
  }

  /** The directory directly under the root that a path lies in or is. */
  function TopDirectory(path: string): Option<string> {
    var segments := Segments(path);
    if |segments| >= 2 && segments[0] == "" then Some(segments[1]) else None
  }

  predicate KernelDirectory(d: Option<string>) { d == Some("proc") || d == Some("sys") || d == Some("dev") }

  lemma RuleIsTopDirectory(name: string, path: string)
    requires '/' !in name
    ensures Matches("/" + name, path) <==> TopDirectory(path) == Some(name)
  {
    MatchesIsSegmentPrefix("/" + name, path);
    NoSlashOneSegment(name);
    assert ("/" + name)[1..] == name && Segments("/" + name) == ["", name];
    var segments := Segments(path);
    if ["", name] <= segments {
      assert segments[0] == ["", name][0] && segments[1] == ["", name][1];
    }
  }

  lemma {:induction false} NoSlashOneSegment(name: string)
    requires '/' !in name
    ensures Segments(name) == [name]
  {
    if name != "" {
      NoSlashOneSegment(name[1..]);
      assert [name[0]] + name[1..] == name;
    }
  }

  lemma KernelRulesAreDirectories(path: string)
    ensures Covered(KERNEL_RULES, path) <==> KernelDirectory(TopDirectory(path))
  {
    assert "/" + "proc" == "/proc" && "/" + "sys" == "/sys" && "/" + "dev" == "/dev";
    RuleIsTopDirectory("proc", path);
    RuleIsTopDirectory("sys", path);
    RuleIsTopDirectory("dev", path);
    assert KERNEL_RULES[0] == "/proc" && KERNEL_RULES[1] == "/sys" && KERNEL_RULES[2] == "/dev";
  }

  /** Kernel and collector agree about the three directories exactly on the paths
      that lie in one of them both as written and as cleaned, or neither way. */
  lemma KernelAgreesExactly(path: string, clean: string -> string)
    requires '\0' !in path && path != ""
    ensures (PathIgnoredPrefix(UserPrefix(path)) <==> Covered(KERNEL_RULES, clean(path))) <==>
            (KernelDirectory(TopDirectory(path)) <==> KernelDirectory(TopDirectory(clean(path))))
  {
    KernelFilterIsThreeRules(path);
    KernelRulesAreDirectories(path);
    KernelRulesAreDirectories(clean(path));
  }

  /** On other paths they need not: the kernel reads the path as written. */
  lemma KernelReadsPathsAsWritten(clean: string -> string)
    requires clean("/proc/../etc") == "/etc"
    ensures PathIgnoredPrefix(UserPrefix("/proc/../etc")) && !Covered(KERNEL_RULES, clean("/proc/../etc"))
  {
    var path := "/etc";
    RuleByCharacters("/proc", path);
    RuleByCharacters("/sys", path);
    RuleByCharacters("/dev", path);
    assert path[1] == 'e';
  }
}
