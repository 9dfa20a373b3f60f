/**
 VIA's search for the library a JSON file names by a relative path. A path means a list of directory names after
 "." and ".." are worked off; the library's path should mean the directory of the JSON file followed by the relative
 path. The main result says, for any two strings, exactly when it does.
 */
module LibraryPath {

  const SEP: char := '/'
  const DOT: char := '.'

  // ---------- The code ----------

  predicate IsAbsolute(path: string) {
    path != "" && path[0] == SEP
  }

  /** rfind; -1 stands for npos. */
  function LastSep(s: string): (k: int)
    ensures -1 <= k < |s|
  {
    if s == "" then -1
    else if s[|s| - 1] == SEP then |s| - 1
    else LastSep(s[..|s| - 1])
  }

  /** Erase everything from the last directory symbol on, if there is one. */
  function Up(path: string): string {
    if LastSep(path) >= 0 then path[..LastSep(path)] else path
  }

  predicate StartsUp(s: string) {
    |s| >= 3 && s[0] == DOT && s[1] == DOT && s[2] == SEP
  }

  predicate StartsHere(s: string) {
    |s| >= 2 && s[0] == DOT && s[1] == SEP
  }

  function SkipHere(s: string): string {
    if StartsHere(s) then SkipHere(s[2..]) else s
  }

  /** The two loops: each leading "../" takes a directory off the path, then each leading "./" is dropped. */
  function Walk(path: string, info: string): string
    decreases |info|
  {
    if StartsUp(info) then Walk(Up(path), info[3..]) else path + ([SEP] + SkipHere(info))
  }

  function Resolve(jsonLocation: string, info: string): string {
    if IsAbsolute(info) then info else Walk(Up(jsonLocation), info)
  }

  /** std::string's operator[], which gives a null character at the end. */
  function At(s: string, i: nat): char
    requires i <= |s|
  {
    if i < |s| then s[i] else 0 as char
  }

  method DetermineJsonLibraryPath(jsonLocation: string, jsonLibraryInfo: string) returns (libraryLocation: string)
    ensures libraryLocation == Resolve(jsonLocation, jsonLibraryInfo)
    ensures IsAbsolute(jsonLibraryInfo) ==> libraryLocation == jsonLibraryInfo
  {
    if At(jsonLibraryInfo, 0) == SEP {
      libraryLocation := jsonLibraryInfo;
    } else {
      var finalPath := jsonLocation;
      var dirPos := LastSep(finalPath);
      if dirPos >= 0 {
        finalPath := finalPath[..dirPos];
      }
      var i: nat := 0;
      assert jsonLibraryInfo[0..] == jsonLibraryInfo;
      while At(jsonLibraryInfo, i) == DOT && At(jsonLibraryInfo, i + 1) == DOT && At(jsonLibraryInfo, i + 2) == SEP
        invariant i <= |jsonLibraryInfo|
        invariant Walk(finalPath, jsonLibraryInfo[i..]) == Resolve(jsonLocation, jsonLibraryInfo)
        decreases |jsonLibraryInfo| - i
      {
        assert jsonLibraryInfo[i..][3..] == jsonLibraryInfo[i + 3..];
        i := i + 3;
        dirPos := LastSep(finalPath);
        if dirPos >= 0 {
          finalPath := finalPath[..dirPos];
        }
      }
      ghost var rest := jsonLibraryInfo[i..];
      assert !StartsUp(rest);
      while At(jsonLibraryInfo, i) == DOT && At(jsonLibraryInfo, i + 1) == SEP
        invariant i <= |jsonLibraryInfo| && SkipHere(jsonLibraryInfo[i..]) == SkipHere(rest)
        decreases |jsonLibraryInfo| - i
      {
        assert jsonLibraryInfo[i..][2..] == jsonLibraryInfo[i + 2..];
        i := i + 2;
      }
      libraryLocation := finalPath + ([SEP] + jsonLibraryInfo[i..]);
    }
  }

  // ---------- What a path means ----------

  /** Where a path leads: from the root or not, so many directories up, then down these names. */
  datatype Place = Place(rooted: bool, ups: nat, names: seq<string>)

  function Split(s: string): (cs: seq<string>)
    ensures |cs| > 0
  {
    if s == "" then [""]
    else
      var cs := Split(s[1..]);
      if s[0] == SEP then [""] + cs else [[s[0]] + cs[0]] + cs[1..]
  }

  const UP: string := [DOT, DOT]
  const HERE: string := [DOT]

  function Step(p: Place, c: string): Place {
    if c == "" || c == HERE then p
    else if c == UP then
      if p.names != [] then p.(names := p.names[..|p.names| - 1])
      else if p.rooted then p
      else p.(ups := p.ups + 1)
    else p.(names := p.names + [c])
  }

  function Steps(p: Place, cs: seq<string>): Place
    decreases |cs|
  {
    if cs == [] then p else Steps(Step(p, cs[0]), cs[1..])
  }

  function Meaning(path: string): Place {
    Steps(Place(IsAbsolute(path), 0, []), Split(path))
  }

  predicate IsName(c: string) {
    c != "" && c != HERE && c != UP && SEP !in c
  }

  predicate AreNames(cs: seq<string>) {
    forall i :: 0 <= i < |cs| ==> IsName(cs[i])
  }

  predicate AreClean(cs: seq<string>) {
    forall i :: 0 <= i < |cs| ==> SEP !in cs[i]
  }

  /** The components, each behind a directory symbol. */
  function Tail(cs: seq<string>): string {
    if cs == [] then "" else Tail(cs[..|cs| - 1]) + ([SEP] + cs[|cs| - 1])
  }

  /** The path of a file, given its directory. */
  function FilePath(absolute: bool, dirs: seq<string>, file: string): string {
    var all := dirs + [file];
    if absolute then Tail(all) else all[0] + Tail(all[1..])
  }

  /** The number of leading "../". */
  function Ups(info: string): nat {
    if StartsUp(info) then 1 + Ups(info[3..]) else 0
  }

  // ---------- Splitting ----------

  lemma {:induction false} SplitBehind(a: string, b: string)
    ensures Split(a + ([SEP] + b)) == Split(a) + Split(b)
  {
    if a == "" {
      assert a + ([SEP] + b) == [SEP] + b && ([SEP] + b)[1..] == b;
    } else {
      SplitBehind(a[1..], b);
      SplitShift(a, b);
      SplitHead(a[0], Split(a[1..]), Split(b));
    }
  }

  lemma {:induction false} SplitShift(a: string, b: string)
    requires a != ""
    ensures (a + ([SEP] + b))[1..] == a[1..] + ([SEP] + b) && (a + ([SEP] + b))[0] == a[0]
  {
  }

  lemma {:induction false} SplitHead(c: char, xs: seq<string>, ys: seq<string>)
    requires |xs| > 0
    ensures [""] + (xs + ys) == ([""] + xs) + ys
    ensures [[c] + (xs + ys)[0]] + (xs + ys)[1..] == ([[c] + xs[0]] + xs[1..]) + ys
  {
  }

  lemma {:induction false} SplitName(c: string)
    requires SEP !in c
    ensures Split(c) == [c]
  {
    if c != "" {
      SplitName(c[1..]);
      assert [c[0]] + c[1..] == c;
    }
  }

  lemma {:induction false} SplitTail(head: string, cs: seq<string>)
    requires SEP !in head && AreClean(cs)
    ensures Split(head + Tail(cs)) == [head] + cs
  {
    if cs == [] {
      assert head + "" == head;
      SplitName(head);
    } else {
      var init, c := cs[..|cs| - 1], cs[|cs| - 1];
      SplitTail(head, init);
      TailRegroup(head, Tail(init), c);
      SplitBehind(head + Tail(init), c);
      SplitName(c);
      assert [head] + init + [c] == [head] + cs;
    }
  }

  lemma {:induction false} TailRegroup(head: string, t: string, c: string)
    ensures head + (t + ([SEP] + c)) == (head + t) + ([SEP] + c)
  {
  }

  lemma {:induction false} TailFront(c: string, cs: seq<string>)
    ensures Tail([c] + cs) == [SEP] + c + Tail(cs)
    decreases |cs|
  {
    var all := [c] + cs;
    if cs == [] {
      assert all[..0] == [];
    } else {
      var init, last := cs[..|cs| - 1], cs[|cs| - 1];
      assert all[..|all| - 1] == [c] + init && all[|all| - 1] == last;
      TailFront(c, init);
      assert ([SEP] + c + Tail(init)) + ([SEP] + last) == [SEP] + c + (Tail(init) + ([SEP] + last));
    }
  }

  /** The components of a string hold no directory symbol, and joined by it they are the string. */
  lemma {:induction false} SplitJoins(s: string)
    ensures AreClean(Split(s)) && Split(s)[0] + Tail(Split(s)[1..]) == s
    ensures (Split(s)[0] == "") == (s == "" || s[0] == SEP)
  {
    var cs := Split(s);
    if s == "" {
      assert cs[1..] == [];
    } else {
      var below := Split(s[1..]);
      SplitJoins(s[1..]);
      if s[0] == SEP {
        assert cs[1..] == [below[0]] + below[1..];
        TailFront(below[0], below[1..]);
        assert "" + ([SEP] + below[0] + Tail(below[1..])) == [s[0]] + s[1..];
      } else {
        assert [s[0]] + below[0] + Tail(below[1..]) == [s[0]] + s[1..];
      }
    }
  }

  // ---------- Steps ----------

  lemma {:induction false} StepsAppend(p: Place, a: seq<string>, b: seq<string>)
    ensures Steps(p, a + b) == Steps(Steps(p, a), b)
    decreases |a|
  {
    if a == [] {
      assert a + b == b;
    } else {
      assert (a + b)[1..] == a[1..] + b;
      StepsAppend(Step(p, a[0]), a[1..], b);
    }
  }

  lemma {:induction false} StepsNames(p: Place, cs: seq<string>)
    requires AreNames(cs)
    ensures Steps(p, cs) == p.(names := p.names + cs)
    decreases |cs|
  {
    if cs == [] {
      assert p.names + [] == p.names;
    } else {
      StepsNames(Step(p, cs[0]), cs[1..]);
      assert p.names + [cs[0]] + cs[1..] == p.names + cs;
    }
  }

  lemma {:induction false} HeadStarts(absolute: bool, head: string, t: string)
    requires if absolute then head == "" && t != "" && t[0] == SEP else IsName(head)
    ensures IsAbsolute(head + t) == absolute
  {
  }

  lemma {:induction false} TailStarts(cs: seq<string>)
    ensures cs != [] ==> Tail(cs) != "" && Tail(cs)[0] == SEP
    ensures cs == [] ==> Tail(cs) == ""
  {
    if cs != [] {
      TailStarts(cs[..|cs| - 1]);
    }
  }

  /** A head and names behind it, where an absolute path has an empty head, and then any text. */
  lemma {:induction false} HeadMeans(absolute: bool, head: string, cs: seq<string>)
    requires AreNames(cs) && if absolute then head == "" && cs != [] else IsName(head)
    ensures Meaning(head + Tail(cs)) == Place(absolute, 0, (if absolute then [] else [head]) + cs)
  {
    TailStarts(cs);
    HeadStarts(absolute, head, Tail(cs));
    SplitTail(head, cs);
    HeadSteps(absolute, head, cs);
  }

  lemma {:induction false} HeadSteps(absolute: bool, head: string, cs: seq<string>)
    requires AreNames(cs) && if absolute then head == "" else IsName(head)
    ensures Steps(Place(absolute, 0, []), [head] + cs) == Place(absolute, 0, (if absolute then [] else [head]) + cs)
  {
    var start := Place(absolute, 0, []);
    StepsAppend(start, [head], cs);
    assert Steps(start, [head]) == Step(start, head);
    StepsNames(Step(start, head), cs);
  }

  /** The meaning of a file's path is its directory and its name. */
  lemma {:induction false} FilePathMeans(absolute: bool, dirs: seq<string>, file: string)
    requires AreNames(dirs) && IsName(file)
    ensures Meaning(FilePath(absolute, dirs, file)) == Place(absolute, 0, dirs + [file])
  {
    var all := dirs + [file];
    if absolute {
      assert "" + Tail(all) == Tail(all) && [] + all == all;
      HeadMeans(true, "", all);
    } else {
      assert [all[0]] + all[1..] == all;
      HeadMeans(false, all[0], all[1..]);
    }
  }

  // ---------- Walking up ----------

  lemma {:induction false} NoSep(c: string)
    requires SEP !in c
    ensures LastSep(c) == -1
  {
    if c != "" {
      NoSep(c[..|c| - 1]);
    }
  }

  lemma {:induction false} LastSepIs(a: string, c: string)
    requires SEP !in c
    ensures LastSep(a + ([SEP] + c)) == |a|
    decreases |c|
  {
    var s := a + ([SEP] + c);
    if c == "" {
      assert s[|s| - 1] == SEP;
    } else {
      LastSepIs(a, c[..|c| - 1]);
      assert s[..|s| - 1] == a + ([SEP] + c[..|c| - 1]);
      assert s[|s| - 1] == c[|c| - 1];
    }
  }

  function OneLess(n: nat): nat {
    if n == 0 then 0 else n - 1
  }

  lemma {:induction false} UpIs(head: string, cs: seq<string>)
    requires SEP !in head && AreClean(cs)
    ensures Up(head + Tail(cs)) == head + Tail(cs[..OneLess(|cs|)])
  {
    if cs == [] {
      assert head + "" == head;
      NoSep(head);
    } else {
      var init, c := cs[..|cs| - 1], cs[|cs| - 1];
      TailRegroup(head, Tail(init), c);
      LastSepIs(head + Tail(init), c);
      assert ((head + Tail(init)) + ([SEP] + c))[..|head + Tail(init)|] == head + Tail(init);
    }
  }

  function AfterUps(info: string): string {
    if StartsUp(info) then AfterUps(info[3..]) else info
  }

  function Rest(info: string): string {
    SkipHere(AfterUps(info))
  }

  /** How many of `n` components are left when `k` of them are taken off. */
  function Kept(n: nat, k: nat): (left: nat)
    ensures left <= n
  {
    if k <= n then n - k else 0
  }

  lemma {:induction false} WalkIs(head: string, cs: seq<string>, info: string)
    requires SEP !in head && AreClean(cs)
    ensures Walk(head + Tail(cs), info) == head + Tail(cs[..Kept(|cs|, Ups(info))]) + ([SEP] + Rest(info))
    decreases |info|
  {
    if StartsUp(info) {
      var fewer := cs[..OneLess(|cs|)];
      UpIs(head, cs);
      WalkIs(head, fewer, info[3..]);
      assert fewer[..Kept(|fewer|, Ups(info[3..]))] == cs[..Kept(|cs|, Ups(info))];
    } else {
      assert cs[..|cs|] == cs;
    }
  }

  // ---------- What the relative path asks for ----------

  function UpBy(p: Place, n: nat): Place
    decreases n
  {
    if n == 0 then p else UpBy(Step(p, UP), n - 1)
  }

  lemma {:induction false} UpByIs(p: Place, n: nat)
    ensures UpBy(p, n) == Place(p.rooted, if p.rooted || n <= |p.names| then p.ups else p.ups + n - |p.names|,
                                p.names[..Kept(|p.names|, n)])
    decreases n
  {
    if n == 0 {
      assert p.names[..|p.names|] == p.names;
    } else {
      UpByIs(Step(p, UP), n - 1);
    }
  }

  lemma {:induction false} FirstComponent(c: string, rest: string, p: Place)
    requires SEP !in c
    ensures Steps(p, Split(c + ([SEP] + rest))) == Steps(Step(p, c), Split(rest))
  {
    SplitBehind(c, rest);
    SplitName(c);
    StepsAppend(p, [c], Split(rest));
    assert Steps(p, [c]) == Step(p, c);
  }

  lemma {:induction false} StepsOverHere(p: Place, info: string)
    ensures Steps(p, Split(info)) == Steps(p, Split(SkipHere(info)))
    decreases |info|
  {
    if StartsHere(info) {
      assert info == HERE + ([SEP] + info[2..]);
      FirstComponent(HERE, info[2..], p);
      StepsOverHere(p, info[2..]);
    }
  }

  lemma {:induction false} StepsOverUps(p: Place, info: string)
    ensures Steps(p, Split(info)) == Steps(UpBy(p, Ups(info)), Split(Rest(info)))
    decreases |info|
  {
    if StartsUp(info) {
      assert info == UP + ([SEP] + info[3..]);
      FirstComponent(UP, info[3..], p);
      StepsOverUps(Step(p, UP), info[3..]);
    } else {
      StepsOverHere(p, info);
    }
  }

  // ---------- Any components come to some steps up and then some names ----------

  /** What the components come to, seen from a place that is not known. */
  function Reduced(cs: seq<string>): Place {
    Steps(Place(false, 0, []), cs)
  }

  function Below(p: Place, names: seq<string>): Place {
    p.(names := p.names + names)
  }

  lemma {:induction false} UpBySnoc(p: Place, n: nat)
    ensures UpBy(p, n + 1) == Step(UpBy(p, n), UP)
    decreases n
  {
    if n > 0 {
      UpBySnoc(Step(p, UP), n - 1);
    }
  }

  lemma {:induction false} StepsSnoc(p: Place, cs: seq<string>, c: string)
    ensures Steps(p, cs + [c]) == Step(Steps(p, cs), c)
  {
    StepsAppend(p, cs, [c]);
  }

  lemma {:induction false} StepBelow(p: Place, names: seq<string>, c: string)
    requires c == UP ==> names != []
    ensures Step(Below(p, names), c) == Below(p, Step(Place(false, 0, names), c).names)
  {
    if c == UP {
      assert (p.names + names)[..|p.names + names| - 1] == p.names + names[..|names| - 1];
    } else if c != "" && c != HERE {
      assert (p.names + names) + [c] == p.names + (names + [c]);
    }
  }

  /** From any place, the components lead up as often as they come to, and down their names. */
  lemma {:induction false} StepsReduced(p: Place, cs: seq<string>)
    ensures !Reduced(cs).rooted && Steps(p, cs) == Below(UpBy(p, Reduced(cs).ups), Reduced(cs).names)
    decreases |cs|
  {
    if cs == [] {
      assert p.names + [] == p.names;
    } else {
      var init, c := cs[..|cs| - 1], cs[|cs| - 1];
      var r := Reduced(init);
      assert cs == init + [c];
      StepsReduced(p, init);
      StepsSnoc(p, init, c);
      StepsSnoc(Place(false, 0, []), init, c);
      if c == UP && r.names == [] {
        UpBySnoc(p, r.ups);
        assert Below(UpBy(p, r.ups), []) == UpBy(p, r.ups);
        assert Below(UpBy(p, r.ups + 1), []) == UpBy(p, r.ups + 1);
      } else {
        StepBelow(UpBy(p, r.ups), r.names, c);
      }
    }
  }

  /** The components come to as many names as they are exactly if all are names. */
  lemma {:induction false} ReducedSize(cs: seq<string>)
    requires AreClean(cs)
    ensures |Reduced(cs).names| + Reduced(cs).ups <= |cs|
    ensures |Reduced(cs).names| == |cs| <==> AreNames(cs)
    decreases |cs|
  {
    if cs != [] {
      var init, c := cs[..|cs| - 1], cs[|cs| - 1];
      assert cs == init + [c];
      ReducedSize(init);
      StepsSnoc(Place(false, 0, []), init, c);
      assert AreNames(cs) == (AreNames(init) && IsName(c));
    }
  }

  lemma {:induction false} UpByTwice(p: Place, a: nat, b: nat)
    ensures UpBy(UpBy(p, a), b) == UpBy(p, a + b)
    decreases a
  {
    if a > 0 {
      UpByTwice(Step(p, UP), a - 1, b);
    }
  }

  lemma {:induction false} UpByBelow(p: Place, names: seq<string>, n: nat)
    requires |names| <= n
    ensures UpBy(Below(p, names), n) == UpBy(p, n - |names|)
    decreases |names|
  {
    if names == [] {
      assert Below(p, []) == p;
    } else {
      var fewer := names[..|names| - 1];
      assert (p.names + names)[..|p.names + names| - 1] == p.names + fewer;
      UpByBelow(p, fewer, n - 1);
    }
  }

  /** Steps further up than needed lead elsewhere, unless the root is reached. */
  lemma {:induction false} FurtherUp(p: Place, c: nat, more: nat, names: seq<string>)
    ensures Below(UpBy(p, c), names) == Below(UpBy(p, c + more), names)
       <==> more == 0 || (p.rooted && |p.names| <= c)
  {
    UpByIs(p, c);
    UpByIs(p, c + more);
    var near, far := UpBy(p, c), UpBy(p, c + more);
    if Below(near, names) == Below(far, names) {
      assert |near.names + names| == |far.names + names|;
    }
  }

  // ---------- The main result ----------

  function Start(jsonLocation: string): Place {
    Place(IsAbsolute(jsonLocation), 0, [])
  }

  /** The components of the JSON file's directory. */
  function Directory(jsonLocation: string): seq<string> {
    if LastSep(jsonLocation) < 0 then [] else Split(Up(jsonLocation))
  }

  /** The components the code keeps; the first one always stays. */
  function KeptOf(cs: seq<string>, ups: nat): seq<string>
    requires cs != []
  {
    [cs[0]] + cs[1..][..Kept(|cs| - 1, ups)]
  }

  /** The components the code takes off. */
  function Removed(cs: seq<string>, ups: nat): seq<string>
    requires cs != []
  {
    cs[1..][Kept(|cs| - 1, ups)..]
  }

  lemma {:induction false} LastSepNone(s: string)
    requires LastSep(s) < 0
    ensures SEP !in s
  {
    if s != "" {
      LastSepNone(s[..|s| - 1]);
      assert s == s[..|s| - 1] + [s[|s| - 1]];
    }
  }

  lemma {:induction false} LastSepFound(s: string)
    requires LastSep(s) >= 0
    ensures s[LastSep(s)] == SEP
  {
    if s[|s| - 1] != SEP {
      LastSepFound(s[..|s| - 1]);
    }
  }

  /** What the code's loops leave, for a directory given by its components. */
  lemma {:induction false} WalkMeans(dir: string, absolute: bool, info: string)
    requires absolute == IsAbsolute(dir + [SEP])
    ensures Meaning(Walk(dir, info))
         == Steps(Place(absolute, 0, []), KeptOf(Split(dir), Ups(info)) + Split(Rest(info)))
  {
    var cs := Split(dir);
    var head, kept := cs[0], cs[1..][..Kept(|cs| - 1, Ups(info))];
    SplitJoins(dir);
    WalkIs(head, cs[1..], info);
    TailStarts(kept);
    SplitTail(head, kept);
    SplitBehind(head + Tail(kept), Rest(info));
    WalkStarts(head, Tail(kept), Rest(info));
    JoinStarts(dir, head, Tail(cs[1..]));
  }

  lemma {:induction false} WalkStarts(head: string, t: string, rest: string)
    requires SEP !in head && (t == "" || t[0] == SEP)
    ensures IsAbsolute(head + t + ([SEP] + rest)) == (head == "")
  {
    if head != "" {
      assert head[0] in head && (head + t + ([SEP] + rest))[0] == head[0];
    } else if t != "" {
      assert (head + t + ([SEP] + rest))[0] == t[0];
    } else {
      assert (head + t + ([SEP] + rest))[0] == SEP;
    }
  }

  lemma {:induction false} JoinStarts(dir: string, head: string, t: string)
    requires dir == head + t && (head == "") == (dir == "" || dir[0] == SEP)
    ensures IsAbsolute(dir + [SEP]) == (head == "")
  {
    if dir != "" {
      assert (dir + [SEP])[0] == dir[0];
    }
  }

  /** Where the relative path leads, from what the code keeps: further up than the code by this many steps. */
  function Missed(removed: seq<string>, ups: nat): int {
    Reduced(removed).ups + ups - |Reduced(removed).names|
  }

  lemma {:induction false} MissedIs(removed: seq<string>, ups: nat)
    requires AreClean(removed) && |removed| <= ups
    ensures Missed(removed, ups) >= 0
    ensures Missed(removed, ups) == 0 <==> |removed| == ups && AreNames(removed)
  {
    ReducedSize(removed);
  }

  lemma {:induction false} WantedMeans(start: Place, kept: seq<string>, removed: seq<string>, info: string)
    requires AreClean(removed) && |removed| <= Ups(info)
    ensures Missed(removed, Ups(info)) >= 0
    ensures Steps(start, kept + removed + Split(info))
         == Steps(UpBy(Steps(start, kept), Missed(removed, Ups(info))), Split(Rest(info)))
  {
    var at, r := Steps(start, kept), Reduced(removed);
    MissedIs(removed, Ups(info));
    StepsAppend(start, kept + removed, Split(info));
    StepsAppend(start, kept, removed);
    StepsOverUps(Steps(at, removed), info);
    StepsReduced(at, removed);
    ReducedSize(removed);
    UpByBelow(UpBy(at, r.ups), r.names, Ups(info));
    UpByTwice(at, r.ups, Ups(info) - |r.names|);
  }

  /** The same components from a place and from further up. */
  lemma {:induction false} SameFrom(p: Place, more: nat, cs: seq<string>)
    ensures Steps(p, cs) == Steps(UpBy(p, more), cs)
       <==> more == 0 || (p.rooted && |p.names| <= Reduced(cs).ups)
  {
    var r := Reduced(cs);
    StepsReduced(p, cs);
    StepsReduced(UpBy(p, more), cs);
    UpByTwice(p, more, r.ups);
    FurtherUp(p, r.ups, more, r.names);
  }

  lemma {:induction false} SplitKept(cs: seq<string>, ups: nat)
    requires cs != [] && AreClean(cs)
    ensures KeptOf(cs, ups) + Removed(cs, ups) == cs
    ensures AreClean(Removed(cs, ups)) && |Removed(cs, ups)| <= ups
    ensures |Removed(cs, ups)| == ups <==> ups < |cs|
  {
  }

  /** A lone file name is kept like a directory. */
  lemma {:induction false} LoneFile(file: string, ups: nat, cs: seq<string>)
    requires SEP !in file
    ensures (file == "" ==> Steps(Place(true, 0, []), cs) != Steps(UpBy(Place(false, 0, []), ups), cs))
    ensures (file != "" ==> (Steps(Step(Place(false, 0, []), file), cs) == Steps(UpBy(Place(false, 0, []), ups), cs)
                             <==> (file == HERE && ups == 0) || (file == UP && ups == 1)))
  {
    var r, start := Reduced(cs), Place(false, 0, []);
    StepsReduced(Place(true, 0, []), cs);
    StepsReduced(UpBy(start, ups), cs);
    StepsReduced(Step(start, file), cs);
    UpByTwice(start, ups, r.ups);
    UpByIs(start, ups + r.ups);
    UpByIs(Step(start, file), r.ups);
    UpByIs(Place(true, 0, []), r.ups);
    if IsName(file) {
      assert Step(start, file).names == [file];
      var here, there := Steps(Step(start, file), cs), Steps(UpBy(start, ups), cs);
      assert r.ups == 0 ==> |here.names| == 1 + |r.names| && |there.names| == |r.names|;
    }
  }

  /** The path that is returned leads to where the relative path leads from the JSON file's directory. */
  predicate Right(jsonLocation: string, info: string) {
    Meaning(Resolve(jsonLocation, info)) == Steps(Start(jsonLocation), Directory(jsonLocation) + Split(info))
  }

  /**
   Every leading "../" takes a component off that is a name and not the first; or the path is absolute and the rest of
   the relative path goes up to the root in any case.
   */
  predicate Resolvable(jsonLocation: string, info: string) {
    var ups := Ups(info);
    if LastSep(jsonLocation) < 0 then (jsonLocation == HERE && ups == 0) || (jsonLocation == UP && ups == 1)
    else
      var cs := Split(Up(jsonLocation));
      || (ups < |cs| && AreNames(cs[|cs| - ups..]))
      || (IsAbsolute(jsonLocation)
          && |Steps(Start(jsonLocation), KeptOf(cs, ups)).names| <= Reduced(Split(Rest(info))).ups)
  }

  lemma {:induction false} ResolvesBelow(jsonLocation: string, info: string)
    requires !IsAbsolute(info) && LastSep(jsonLocation) >= 0
    ensures Right(jsonLocation, info) <==> Resolvable(jsonLocation, info)
  {
    var dir, ups, start, rest := Up(jsonLocation), Ups(info), Start(jsonLocation), Split(Rest(info));
    var cs := Split(dir);
    var kept, removed := KeptOf(cs, ups), Removed(cs, ups);
    SplitJoins(dir);
    SplitKept(cs, ups);
    LastSepFound(jsonLocation);
    assert (dir + [SEP])[0] == jsonLocation[0];
    WalkMeans(dir, IsAbsolute(jsonLocation), info);
    StepsAppend(start, kept, rest);
    WantedMeans(start, kept, removed, info);
    MissedIs(removed, ups);
    SameFrom(Steps(start, kept), Missed(removed, ups), rest);
    StepsReduced(start, kept);
    UpByIs(start, Reduced(kept).ups);
    assert ups < |cs| ==> removed == cs[|cs| - ups..];
  }

  lemma {:induction false} ResolvesLone(jsonLocation: string, info: string)
    requires !IsAbsolute(info) && LastSep(jsonLocation) < 0
    ensures Right(jsonLocation, info) <==> Resolvable(jsonLocation, info)
  {
    var start, rest := Start(jsonLocation), Split(Rest(info));
    LastSepNone(jsonLocation);
    SplitName(jsonLocation);
    assert jsonLocation != "" ==> jsonLocation[0] in jsonLocation;
    WalkMeans(jsonLocation, jsonLocation == "", info);
    var kept := KeptOf([jsonLocation], Ups(info));
    assert kept == [jsonLocation];
    StepsAppend(Place(jsonLocation == "", 0, []), kept, rest);
    assert Steps(Place(jsonLocation == "", 0, []), kept) == Step(Place(jsonLocation == "", 0, []), jsonLocation);
    assert Directory(jsonLocation) + Split(info) == Split(info);
    StepsOverUps(start, info);
    LoneFile(jsonLocation, Ups(info), rest);
  }

  /** The main result: for every JSON file path and every relative library path. */
  lemma {:induction false} ResolvesIff(jsonLocation: string, info: string)
    requires !IsAbsolute(info)
    ensures Right(jsonLocation, info) <==> Resolvable(jsonLocation, info)
  {
    if LastSep(jsonLocation) < 0 {
      ResolvesLone(jsonLocation, info);
    } else {
      ResolvesBelow(jsonLocation, info);
    }
  }

  /** A file below a directory of the components `[head] + cs`. */
  lemma {:induction false} FileBelow(head: string, cs: seq<string>, file: string)
    requires SEP !in head && AreClean(cs) && SEP !in file
    ensures var path := head + Tail(cs + [file]);
            LastSep(path) >= 0 && Split(Up(path)) == [head] + cs
  {
    var dir, all := head + Tail(cs), cs + [file];
    assert all[..|all| - 1] == cs;
    TailRegroup(head, Tail(cs), file);
    LastSepIs(dir, file);
    assert (dir + ([SEP] + file))[..|dir|] == dir;
    SplitTail(head, cs);
  }

  /** In a path of names, the relative path must go up fewer times than there are directories, if it is not absolute. */
  lemma {:induction false} NamedResolvesIff(absolute: bool, dirs: seq<string>, file: string, info: string)
    requires AreNames(dirs) && IsName(file) && !IsAbsolute(info)
    ensures Right(FilePath(absolute, dirs, file), info) <==> absolute || Ups(info) < |dirs|
  {
    var path, all := FilePath(absolute, dirs, file), dirs + [file];
    ResolvesIff(path, info);
    if absolute {
      assert "" + Tail(all) == Tail(all);
      TailStarts(all);
      FileBelow("", dirs, file);
      RootedNames(path, dirs, info);
    } else if dirs == [] {
      assert all[1..] == [] && path == file + "" == file;
      NoSep(file);
    } else {
      RelativeFile(dirs, file);
      RelativeNames(path, dirs, info);
    }
  }

  lemma {:induction false} RelativeFile(dirs: seq<string>, file: string)
    requires AreNames(dirs) && IsName(file) && dirs != []
    ensures var path := FilePath(false, dirs, file);
            LastSep(path) >= 0 && Split(Up(path)) == dirs && !IsAbsolute(path)
  {
    var all := dirs + [file];
    assert all[1..] == dirs[1..] + [file];
    FileBelow(dirs[0], dirs[1..], file);
    assert [dirs[0]] + dirs[1..] == dirs;
    HeadStarts(false, dirs[0], Tail(all[1..]));
  }

  lemma {:induction false} RootedNames(path: string, dirs: seq<string>, info: string)
    requires AreNames(dirs) && IsAbsolute(path) && LastSep(path) >= 0 && Split(Up(path)) == [""] + dirs
    ensures Resolvable(path, info)
  {
    var cs, ups := [""] + dirs, Ups(info);
    if ups <= |dirs| {
      LastNames(cs, dirs, ups);
    } else {
      assert KeptOf(cs, ups) == [""];
      assert Steps(Start(path), [""]) == Step(Start(path), "");
    }
  }

  lemma {:induction false} LastNames(cs: seq<string>, dirs: seq<string>, k: nat)
    requires AreNames(dirs) && cs == [""] + dirs && k <= |dirs|
    ensures AreNames(cs[|cs| - k..])
  {
    assert cs[|cs| - k..] == dirs[|dirs| - k..];
  }

  lemma {:induction false} RelativeNames(path: string, dirs: seq<string>, info: string)
    requires AreNames(dirs) && !IsAbsolute(path) && LastSep(path) >= 0 && Split(Up(path)) == dirs
    ensures Resolvable(path, info) <==> Ups(info) < |dirs|
  {
  }

  // ---------- Samples, with the symbols written out ----------

  lemma {:induction false} UpOne(dir: string, name: string)
    requires '/' !in name
    ensures Up(dir + ("/" + name)) == dir
  {
    LastSepIs(dir, name);
    assert (dir + ("/" + name))[..|dir|] == dir;
  }

  /** "./" stays in the directory of the JSON file. */
  lemma {:induction false} StaysHere(dir: string, file: string, lib: string)
    requires '/' !in file && !StartsHere(lib)
    ensures Resolve(dir + ("/" + file), "./" + lib) == dir + ("/" + lib)
  {
    UpOne(dir, file);
    var info := "./" + lib;
    assert info[2..] == lib && info[0] == '.' && info[1] == '/';
    assert !StartsUp(info) && SkipHere(info) == lib;
    assert dir + ([SEP] + lib) == dir + ("/" + lib);
  }

  /** "../" leaves it once. */
  lemma {:induction false} LeavesOnce(dir: string, name: string, file: string, lib: string)
    requires '/' !in name && '/' !in file && !StartsUp(lib) && !StartsHere(lib)
    ensures Resolve(dir + ("/" + name) + ("/" + file), "../" + lib) == dir + ("/" + lib)
  {
    UpOne(dir + ("/" + name), file);
    UpOne(dir, name);
    var info := "../" + lib;
    assert info[3..] == lib && info[0] == '.' && info[1] == '.' && info[2] == '/';
    assert Walk(dir, lib) == dir + ([SEP] + lib) == dir + ("/" + lib);
  }

  /** What the components of a path do. */
  lemma {:induction false} ComponentsDo(p: Place, name: string)
    requires name !in {"", ".", ".."}
    ensures Step(p, "") == p && Step(p, ".") == p && Step(p, name) == p.(names := p.names + [name])
    ensures Step(p, "..") == if p.names != [] then p.(names := p.names[..|p.names| - 1])
                             else if p.rooted then p else p.(ups := p.ups + 1)
    ensures forall a: string, b: string :: Split(a + ("/" + b)) == Split(a) + Split(b)
  {
    forall a: string, b: string ensures Split(a + ("/" + b)) == Split(a) + Split(b) {
      SplitBehind(a, b);
    }
  }
}
