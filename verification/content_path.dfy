/**
 Paths of a content manifest: which are accepted, and which file each one names.
 */
module ContentPaths {
  import opened Common

  /** A file below a version directory: its path components, in lower case because the file system
      ignores case. */
  type Target = seq<string>

  function Lower(c: char): char {
    if 'A' <= c <= 'Z' then c - 'A' + 'a' else c
  }

  /** `to_ascii_lowercase` */
  function Fold(s: string): (r: string)
    ensures |r| == |s|
  {
    seq(|s|, i requires 0 <= i < |s| => Lower(s[i]))
  }

  function Normalise(s: string): (r: string)
    ensures |r| == |s| && '\\' !in r
  {
    seq(|s|, i requires 0 <= i < |s| => if s[i] == '\\' then '/' else s[i])
  }

  predicate HasPrefix(s: string, prefix: string) {
    |prefix| <= |s| && s[..|prefix|] == prefix
  }

  function Split(s: string): (r: seq<string>)
    ensures |r| > 0
  {
    if s == "" then [""]
    else
      var rest := Split(s[1..]);
      if s[0] == '/' then [""] + rest else [[s[0]] + rest[0]] + rest[1..]
  }

  function Join(parts: seq<string>): string
    requires |parts| > 0
  {
    if |parts| == 1 then parts[0] else parts[0] + "/" + Join(parts[1..])
  }

  /** A path's components: repeated separators and `.` name nothing. */
  function Components(parts: seq<string>): (r: seq<string>)
    ensures forall c :: c in r <==> c in parts && c != "" && c != "."
  {
    if parts == [] then []
    else if parts[0] == "" || parts[0] == "." then Components(parts[1..])
    else [parts[0]] + Components(parts[1..])
  }

  function FoldedTarget(normalised: string): Target {
    Components(Split(Fold(normalised)))
  }

  /** The file a content path names. */
  function TargetOf(path: string): Target {
    FoldedTarget(Normalise(path))
  }

  /** The extension, without regard to case, is `yar`; a name that is all extension has none. */
  predicate HasYarExtension(name: string) {
    |name| > 4 && Fold(name[|name| - 4..]) == ".yar"
  }

  const REPUTATION := "reputation.json"
  const RULES := "rules/"

  /** The accepted relative path, with forward slashes, or nothing. */
  function ContentPath(path: string): Option<string> {
    var n := Normalise(path);
    var parts := Split(n);
    var components := Components(parts);
    if HasPrefix(n, "/") || parts[0] == "." || ".." in parts then None
    else if n == REPUTATION || (HasPrefix(n, RULES) && components != [] && HasYarExtension(components[|components| - 1]))
    then Some(n)
    else None
  }

  // ---------- Splitting ----------

  lemma {:induction false} JoinSplit(s: string)
    ensures Join(Split(s)) == s
  {
    if s != "" {
      JoinSplit(s[1..]);
      var rest := Split(s[1..]);
      if s[0] == '/' {
        assert ([""] + rest)[1..] == rest;
      } else {
        assert ([[s[0]] + rest[0]] + rest[1..])[1..] == rest[1..];
      }
    }
  }

  lemma {:induction false} SplitAfter(head: string, s: string)
    requires '/' !in head
    ensures Split(head + "/" + s) == [head] + Split(s)
    ensures Split(head) == [head]
  {
    if head == "" {
      assert (head + "/" + s)[1..] == s;
    } else {
      SplitAfter(head[1..], s);
      assert (head + "/" + s)[1..] == head[1..] + "/" + s;
      assert [head[0]] + head[1..] == head;
    }
  }

  lemma FoldCons(c: char, s: string)
    ensures Fold([c] + s) == [Lower(c)] + Fold(s)
  {
  }

  lemma {:induction false} SplitFold(s: string)
    ensures |Split(Fold(s))| == |Split(s)|
    ensures forall i :: 0 <= i < |Split(s)| ==> Split(Fold(s))[i] == Fold(Split(s)[i])
  {
    if s != "" {
      SplitFold(s[1..]);
      var parts, folded := Split(s[1..]), Split(Fold(s[1..]));
      assert Fold(s)[0] == Lower(s[0]) && Fold(s)[1..] == Fold(s[1..]);
      FoldCons(s[0], parts[0]);
      assert Fold("") == "";
      hide Fold;
      if s[0] == '/' {
        assert Split(s) == [""] + parts && Split(Fold(s)) == [""] + folded;
      } else {
        assert Split(s) == [[s[0]] + parts[0]] + parts[1..];
        assert Split(Fold(s)) == [[Lower(s[0])] + folded[0]] + folded[1..];
      }
    }
  }

  // ---------- What an accepted path names ----------

  /** Nothing outside the directory, and nothing but the reputation file and files below `rules`. */
  lemma TargetInside(path: string)
    requires ContentPath(path).Some?
    ensures "" !in TargetOf(path) && "." !in TargetOf(path) && ".." !in TargetOf(path)
    ensures TargetOf(path) == [REPUTATION] || (|TargetOf(path)| > 1 && TargetOf(path)[0] == "rules")
  {
    var n := Normalise(path);
    NoParent(n);
    hide Components, Split, HasYarExtension, Fold;
    if n == REPUTATION {
      Reputation();
    } else {
      Rules(n);
    }
  }

  lemma Reputation()
    ensures FoldedTarget(REPUTATION) == [REPUTATION]
  {
    assert Fold(REPUTATION) == REPUTATION;
    SplitAfter(REPUTATION, "");
  }

  lemma DotDot(part: string)
    requires Fold(part) == ".."
    ensures part == ".."
  {
    assert Fold(part)[0] == Lower(part[0]) && Fold(part)[1] == Lower(part[1]);
    assert part[0] == '.' && part[1] == '.';
  }

  lemma NoParent(n: string)
    requires ".." !in Split(n)
    ensures ".." !in FoldedTarget(n)
  {
    SplitFold(n);
    if ".." in FoldedTarget(n) {
      assert ".." in Split(Fold(n));
      var i :| 0 <= i < |Split(n)| && ".." == Split(Fold(n))[i];
      DotDot(Split(n)[i]);
    }
  }

  lemma Rules(n: string)
    requires HasPrefix(n, RULES)
    requires Components(Split(n)) != [] && HasYarExtension(Components(Split(n))[|Components(Split(n))| - 1])
    ensures |FoldedTarget(n)| > 1 && FoldedTarget(n)[0] == "rules"
  {
    hide HasYarExtension, Components;
    var rest := n[6..];
    assert n == "rules" + "/" + rest;
    assert Fold(n) == "rules" + "/" + Fold(rest);
    SplitAfter("rules", rest);
    SplitAfter("rules", Fold(rest));
    var last := Components(Split(n))[|Components(Split(n))| - 1];
    YarIsLong(last);
    assert last in Components(Split(n)) && last in Split(rest);
    Below(rest, last);
    First("rules", Split(Fold(rest)));
  }

  lemma YarIsLong(name: string)
    requires HasYarExtension(name)
    ensures |name| > 4 && name != "rules"
  {
    assert Fold("ules")[0] == 'u';
    assert "rules"[1..] == "ules";
  }

  lemma Below(rest: string, name: string)
    requires name in Split(rest) && |name| > 1
    ensures Fold(name) in Components(Split(Fold(rest)))
  {
    SplitFold(rest);
    var i :| 0 <= i < |Split(rest)| && Split(rest)[i] == name;
    assert Split(Fold(rest))[i] == Fold(name);
  }

  lemma First(head: string, tail: seq<string>)
    requires head != "" && head != "."
    ensures Components([head] + tail) == [head] + Components(tail)
  {
    assert ([head] + tail)[1..] == tail;
  }

  /** A path written with forward slashes and no empty or `.` component. */
  predicate Plain(path: string) {
    '\\' !in path && "" !in Split(Fold(path)) && "." !in Split(Fold(path))
  }

  lemma {:induction false} NothingDropped(parts: seq<string>)
    requires "" !in parts && "." !in parts
    ensures Components(parts) == parts
  {
    if parts != [] {
      NothingDropped(parts[1..]);
    }
  }

  /** Plain paths name the same file only when they are equal but for case. */
  lemma PlainTargets(p: string, q: string)
    requires Plain(p) && Plain(q)
    ensures TargetOf(p) == TargetOf(q) <==> Fold(p) == Fold(q)
  {
    assert Normalise(p) == p && Normalise(q) == q;
    NothingDropped(Split(Fold(p)));
    NothingDropped(Split(Fold(q)));
    JoinSplit(Fold(p));
    JoinSplit(Fold(q));
  }

  /** The two separators name the same file, yet set paths apart when only case is folded. */
  lemma SeparatorFolded(path: string, k: nat)
    requires k < |path| && path[k] == '/'
    ensures var other := path[k := '\\'];
            Fold(other) != Fold(path) && TargetOf(other) == TargetOf(path) && ContentPath(other) == ContentPath(path)
  {
    var other := path[k := '\\'];
    assert Fold(other)[k] == '\\' && Fold(path)[k] == '/';
    assert Normalise(other) == Normalise(path);
  }

  lemma NothingReplaced(path: string)
    requires '\\' !in path
    ensures Normalise(path) == path
  {
  }

  lemma {:induction false} YarFile()
    ensures HasYarExtension("a.yar")
  {
    assert "a.yar"[1..] == ".yar" && Fold(".yar") == ".yar";
  }

  lemma SplitRule(name: string)
    requires '/' !in name
    ensures Split(RULES + name) == ["rules", name] && "rules"[0] == 'r'
  {
    assert RULES + name == "rules" + "/" + name;
    SplitAfter("rules", name);
    SplitAfter(name, "");
  }

  lemma RuleFileAccepted(name: string)
    requires '/' !in name && '\\' !in name && HasYarExtension(name)
    ensures ContentPath(RULES + name) == Some(RULES + name)
  {
    YarIsLong(name);
    NothingReplaced(RULES + name);
    hide Normalise, HasYarExtension, Fold;
    SplitRule(name);
    NothingDropped(["rules", name]);
    hide Split, Components;
    var n := RULES + name;
    assert n[0] == 'r' && n[..6] == RULES;
    assert HasPrefix(n, RULES) && !HasPrefix(n, "/");
    hide HasPrefix;
    assert name != "." && name != ".." && "rules" != ".." && "rules" != ".";
  }

  /** A rule file whose name has no upper-case ASCII letter is kept under that name, and named plainly. */
  lemma RuleFileTarget(name: string)
    requires '/' !in name && '\\' !in name && HasYarExtension(name) && Fold(name) == name
    ensures TargetOf(RULES + name) == ["rules", name] && Plain(RULES + name) && Fold(RULES + name) == RULES + name
  {
    YarIsLong(name);
    NothingReplaced(RULES + name);
    assert Fold(RULES) == RULES;
    assert Fold(RULES + name) == Fold(RULES) + Fold(name);
    SplitRule(name);
    NothingDropped(["rules", name]);
    hide Split, Components, Fold, Normalise, HasYarExtension;
    assert "" !in ["rules", name] && "." !in ["rules", name];
  }

  function YarName(stem: string): string { stem + ".yar" }

  function RulePath(stem: string): string { RULES + YarName(stem) }

  /** A one-letter rule file, its letter beyond ASCII. */
  lemma LetterIsPlain(c: char)
    requires c > '\U{7F}'
    ensures ContentPath(RulePath([c])).Some? && Plain(RulePath([c])) && Fold(RulePath([c])) == RulePath([c])
    ensures TargetOf(RulePath([c])) == ["rules", YarName([c])]
  {
    var name := YarName([c]);
    assert name[1..] == ".yar" && Fold(".yar") == ".yar";
    assert Fold(name) == name;
    RuleFileAccepted(name);
    RuleFileTarget(name);
    hide Fold;
  }
}
