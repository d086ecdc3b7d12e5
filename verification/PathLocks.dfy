/** The namespace locks: which locks a path needs, in which order, and what any number of
    handlers that take and give them back can and cannot do. */
module PathLocks {
  import opened Seqs

  type Path = string

  // ---- The locks of a path (master/metadata.py, acquire_for_operation) ----

  /** `path.strip('/')` */
  function StripLeft(path: Path): Path
    decreases |path|
  {
    if path != "" && path[0] == '/' then StripLeft(path[1..]) else path
  }

  function StripRight(path: Path): Path
    decreases |path|
  {
    if path != "" && Last(path) == '/' then StripRight(Init(path)) else path
  }

  /** `path.split('/')` */
  function Split(path: Path): (parts: seq<string>)
    ensures forall i :: 0 <= i < |parts| ==> '/' !in parts[i]
    decreases |path|
  {
    if path == "" then [""]
    else
      var rest := Split(path[1..]);
      if path[0] == '/' then [""] + rest
      else if rest == [] then [[path[0]]]
      else [[path[0]] + rest[0]] + rest[1..]
  }

  /** One lock name for each component, each extending the one before. */
  function PrefixNames(parts: seq<string>, path: Path): (names: seq<string>)
    decreases |parts|
  {
    if parts == [] then []
    else if parts[0] == "" then PrefixNames(parts[1..], path)
    else
      var longer := path + "/" + parts[0];
      [longer] + PrefixNames(parts[1..], longer)
  }

  function LockNames(path: Path): seq<string> {
    PrefixNames(Split(StripRight(StripLeft(path))), "")
  }

  /** The name reached after all of `parts`. */
  function LastName(parts: seq<string>, path: Path): string
    decreases |parts|
  {
    if parts == [] then path
    else LastName(parts[1..], if parts[0] == "" then path else path + "/" + parts[0])
  }

  lemma {:induction false} NamesAppend(parts: seq<string>, path: Path, part: string)
    ensures PrefixNames(parts + [part], path) ==
      PrefixNames(parts, path) + if part == "" then [] else [LastName(parts, path) + "/" + part]
    decreases |parts|
  {
    if parts == [] {
      assert [] + [part] == [part] && [part][1..] == [];
    } else {
      assert (parts + [part])[1..] == parts[1..] + [part];
      NamesAppend(parts[1..], if parts[0] == "" then path else path + "/" + parts[0], part);
    }
  }

  lemma {:induction false} LastNameAppend(parts: seq<string>, path: Path, part: string)
    ensures LastName(parts + [part], path) ==
      if part == "" then LastName(parts, path) else LastName(parts, path) + "/" + part
    decreases |parts|
  {
    if parts == [] {
      assert [] + [part] == [part] && [part][1..] == [];
    } else {
      assert (parts + [part])[1..] == parts[1..] + [part];
      LastNameAppend(parts[1..], if parts[0] == "" then path else path + "/" + parts[0], part);
    }
  }

  class NamespaceLockManager {
    /** The path components that have a lock object. */
    var locks: set<string>

    constructor ()
      ensures locks == {}
    {
      locks := {};
    }

    /** The order in which an operation takes its locks. Whether a lock can be taken is
        the business of the protocol below. */
    method AcquireForOperation(path: Path) returns (acquired: seq<string>)
      modifies this
      ensures acquired == LockNames(path)
      ensures locks == old(locks) + set n | n in LockNames(path)
    {
      var parts := Split(StripRight(StripLeft(path)));
      var prefix := "";
      acquired := [];
      for i := 0 to |parts|
        invariant acquired == PrefixNames(parts[..i], "")
        invariant prefix == LastName(parts[..i], "")
        invariant locks == old(locks) + set n | n in acquired
      {
        assert parts[..i + 1] == parts[..i] + [parts[i]];
        NamesAppend(parts[..i], "", parts[i]);
        LastNameAppend(parts[..i], "", parts[i]);
        if parts[i] == "" { continue; }
        prefix := prefix + "/" + parts[i];
        locks := locks + {prefix};
        acquired := acquired + [prefix];
      }
      assert parts[..|parts|] == parts;
    }
  }

  // ---- The locks in terms of the text of the path ----

  function Slashes(n: nat): string {
    seq(n, _ => '/')
  }

  /** A component of a path. */
  predicate IsComponent(c: string) {
    c != "" && '/' !in c
  }

  /** `cs` with `gaps[i]` slashes before the i-th component and the last gap at the end. */
  function Written(cs: seq<string>, gaps: seq<nat>): Path
    requires |gaps| == |cs| + 1
    decreases |cs|
  {
    Slashes(gaps[0]) + if cs == [] then "" else cs[0] + Written(cs[1..], gaps[1..])
  }

  /** Components with at least one slash between them. */
  predicate Spelled(cs: seq<string>, gaps: seq<nat>) {
    && |gaps| == |cs| + 1
    && (forall i :: 0 <= i < |cs| ==> IsComponent(cs[i]))
    && (forall i :: 1 <= i < |cs| ==> gaps[i] >= 1)
  }

  /** A slash and a component, again and again. */
  function Joined(cs: seq<string>): string
    decreases |cs|
  {
    if cs == [] then "" else "/" + cs[0] + Joined(cs[1..])
  }

  lemma LeadingSlash(rest: Path, path: Path)
    ensures PrefixNames(Split("/" + rest), path) == PrefixNames(Split(rest), path)
  {
    assert ("/" + rest)[1..] == rest;
    assert Split("/" + rest) == [""] + Split(rest);
    assert ([""] + Split(rest))[1..] == Split(rest);
  }

  lemma {:induction false} LeadingSlashes(n: nat, rest: Path, path: Path)
    ensures PrefixNames(Split(Slashes(n) + rest), path) == PrefixNames(Split(rest), path)
    decreases n
  {
    if n == 0 {
      assert Slashes(n) + rest == rest;
    } else {
      assert Slashes(n) + rest == "/" + (Slashes(n - 1) + rest);
      LeadingSlash(Slashes(n - 1) + rest, path);
      LeadingSlashes(n - 1, rest, path);
    }
  }

  lemma {:induction false} SplitEndsInSlash(path: Path)
    ensures Split(path + "/") == Split(path) + [""]
    decreases |path|
  {
    if path == "" {
      assert path + "/" == "/" && ("/")[1..] == "";
    } else {
      assert (path + "/")[1..] == path[1..] + "/";
      SplitEndsInSlash(path[1..]);
    }
  }

  lemma {:induction false} StripLeftIrrelevant(path: Path)
    ensures PrefixNames(Split(StripLeft(path)), "") == PrefixNames(Split(path), "")
    decreases |path|
  {
    if path != "" && path[0] == '/' {
      assert path == "/" + path[1..];
      StripLeftIrrelevant(path[1..]);
      LeadingSlash(path[1..], "");
    }
  }

  lemma {:induction false} StripRightIrrelevant(path: Path)
    ensures PrefixNames(Split(StripRight(path)), "") == PrefixNames(Split(path), "")
    decreases |path|
  {
    if path != "" && Last(path) == '/' {
      assert path == Init(path) + "/";
      StripRightIrrelevant(Init(path));
      SplitEndsInSlash(Init(path));
      NamesAppend(Split(Init(path)), "", "");
    }
  }

  lemma StripIrrelevant(path: Path)
    ensures LockNames(path) == PrefixNames(Split(path), "")
  {
    StripLeftIrrelevant(path);
    StripRightIrrelevant(StripLeft(path));
  }

  lemma {:induction false} SplitComponent(c: string, rest: Path)
    requires IsComponent(c) && (rest == "" || rest[0] == '/')
    ensures Split(c + rest) == [c] + if rest == "" then [] else Split(rest[1..])
    decreases |c|
  {
    assert (c + rest)[1..] == c[1..] + rest;
    if |c| == 1 {
      assert c[1..] + rest == rest;
      var tail := if rest == "" then [] else Split(rest[1..]);
      assert Split(rest) == [""] + tail && Split(rest)[1..] == tail;
      assert [c[0]] + "" == c;
    } else {
      SplitComponent(c[1..], rest);
      var tail := if rest == "" then [] else Split(rest[1..]);
      assert Split(c[1..] + rest)[1..] == tail;
      assert [c[0]] + c[1..] == c;
    }
  }

  /** The first component makes the first name; the rest of the path makes the others. */
  lemma NamesOfComponent(c: string, rest: Path, path: Path)
    requires IsComponent(c) && (rest == "" || rest[0] == '/')
    ensures PrefixNames(Split(c + rest), path) == [path + "/" + c] + PrefixNames(Split(rest), path + "/" + c)
  {
    SplitComponent(c, rest);
    var tail := if rest == "" then [] else Split(rest[1..]);
    assert ([c] + tail)[1..] == tail;
    if rest == "" {
      assert Split(rest) == [""] && [""][1..] == [];
    } else {
      assert rest == "/" + rest[1..];
      LeadingSlash(rest[1..], path + "/" + c);
    }
  }

  lemma SpelledTail(cs: seq<string>, gaps: seq<nat>)
    requires Spelled(cs, gaps) && cs != []
    ensures Spelled(cs[1..], gaps[1..])
    ensures var rest := Written(cs[1..], gaps[1..]); rest == "" || rest[0] == '/'
  {
    assert forall i :: 1 <= i < |cs[1..]| ==> gaps[1..][i] == gaps[i + 1];
    if |cs| == 1 {
      assert Written(cs[1..], gaps[1..]) == Slashes(gaps[1]);
    }
  }

  lemma FirstOfText(cs: seq<string>, gaps: seq<nat>, path: Path)
    requires Spelled(cs, gaps) && cs != []
    ensures PrefixNames(Split(Written(cs, gaps)), path) ==
      [path + "/" + cs[0]] + PrefixNames(Split(Written(cs[1..], gaps[1..])), path + "/" + cs[0])
  {
    SpelledTail(cs, gaps);
    LeadingSlashes(gaps[0], cs[0] + Written(cs[1..], gaps[1..]), path);
    NamesOfComponent(cs[0], Written(cs[1..], gaps[1..]), path);
  }

  lemma NoneOfText(gaps: seq<nat>, path: Path)
    requires |gaps| == 1
    ensures PrefixNames(Split(Written([], gaps)), path) == []
  {
    LeadingSlashes(gaps[0], "", path);
    assert Split("") == [""] && [""][1..] == [];
  }

  lemma JoinedNext(cs: seq<string>, k: nat, path: Path)
    requires k < |cs|
    ensures path + Joined(cs[..k + 1]) == path + "/" + cs[0] + Joined(cs[1..][..k])
  {
    assert cs[..k + 1][1..] == cs[1..][..k];
  }

  lemma {:induction false} NamesOfText(cs: seq<string>, gaps: seq<nat>, path: Path)
    requires Spelled(cs, gaps)
    ensures var names := PrefixNames(Split(Written(cs, gaps)), path);
      |names| == |cs| && forall k :: 0 <= k < |cs| ==> names[k] == path + Joined(cs[..k + 1])
    decreases |cs|
  {
    if cs == [] {
      NoneOfText(gaps, path);
    } else {
      SpelledTail(cs, gaps);
      FirstOfText(cs, gaps, path);
      NamesOfText(cs[1..], gaps[1..], path + "/" + cs[0]);
      forall k | 0 <= k < |cs|
        ensures PrefixNames(Split(Written(cs, gaps)), path)[k] == path + Joined(cs[..k + 1])
      {
        JoinedNext(cs, k, path);
      }
    }
  }

  /** However a path is spelled, it has as many locks as components, and the k-th one is a
      slash and the k-th component behind the one before. */
  lemma {:induction false} LocksOfText(cs: seq<string>, gaps: seq<nat>)
    requires Spelled(cs, gaps)
    ensures var names := LockNames(Written(cs, gaps));
      |names| == |cs| && forall k :: 0 <= k < |cs| ==> names[k] == Joined(cs[..k + 1])
  {
    StripIrrelevant(Written(cs, gaps));
    NamesOfText(cs, gaps, "");
    forall k | 0 <= k < |cs| ensures LockNames(Written(cs, gaps))[k] == Joined(cs[..k + 1]) {
      assert "" + Joined(cs[..k + 1]) == Joined(cs[..k + 1]);
    }
  }

  /** Every text is a path spelled in some way. */
  lemma {:induction false} EveryPathSpelled(path: Path) returns (cs: seq<string>, gaps: seq<nat>)
    ensures Spelled(cs, gaps) && Written(cs, gaps) == path
    decreases |path|
  {
    if path == "" {
      return [], [0];
    }
    var cs', gaps' := EveryPathSpelled(path[1..]);
    assert path == [path[0]] + path[1..];
    if path[0] == '/' {
      cs, gaps := cs', gaps'[0 := gaps'[0] + 1];
      assert Slashes(gaps'[0] + 1) == "/" + Slashes(gaps'[0]);
      assert gaps[1..] == gaps'[1..];
    } else if cs' != [] && gaps'[0] == 0 {
      cs, gaps := cs'[0 := [path[0]] + cs'[0]], gaps';
      assert cs[1..] == cs'[1..];
      assert Slashes(0) == "";
    } else {
      cs, gaps := [[path[0]]] + cs', [0] + gaps';
      assert cs[1..] == cs' && gaps[1..] == gaps' && Slashes(0) == "";
    }
  }

  /** Slashes, then the component `c`, then nothing or a slash and anything. */
  ghost predicate BeginsWith(path: Path, c: string) {
    IsComponent(c) && exists n: nat, rest: string :: path == Slashes(n) + c + rest && (rest == "" || rest[0] == '/')
  }

  lemma FirstLock(path: Path, c: string)
    requires BeginsWith(path, c)
    ensures LockNames(path) != [] && LockNames(path)[0] == "/" + c
  {
    var n: nat, rest: string :| path == Slashes(n) + c + rest && (rest == "" || rest[0] == '/');
    StripIrrelevant(path);
    assert path == Slashes(n) + (c + rest);
    LeadingSlashes(n, c + rest, "");
    NamesOfComponent(c, rest, "");
    assert "" + "/" + c == "/" + c;
  }

  // ---- Names of one path never meet names of an unrelated one ----

  function UpToSlash(s: string): string
    decreases |s|
  {
    if s == "" || s[0] == '/' then "" else [s[0]] + UpToSlash(s[1..])
  }

  /** Up to the second slash: the first component of a lock name. */
  function FirstComponent(name: string): string
    requires name != ""
  {
    [name[0]] + UpToSlash(name[1..])
  }

  lemma {:induction false} UpToSlashOf(part: string, rest: string)
    requires '/' !in part && (rest == "" || rest[0] == '/')
    ensures UpToSlash(part + rest) == part
    decreases |part|
  {
    if part == "" {
      assert part + rest == rest;
    } else {
      assert (part + rest)[1..] == part[1..] + rest;
      UpToSlashOf(part[1..], rest);
    }
  }

  /** Every later name continues the path with a slash. */
  lemma {:induction false} NamesExtend(parts: seq<string>, path: Path)
    requires forall i :: 0 <= i < |parts| ==> '/' !in parts[i]
    ensures forall n :: n in PrefixNames(parts, path) ==> |path| + 1 < |n| && n[..|path|] == path && n[|path|] == '/'
    ensures Distinct(PrefixNames(parts, path))
    decreases |parts|
  {
    if parts != [] {
      var longer := if parts[0] == "" then path else path + "/" + parts[0];
      NamesExtend(parts[1..], longer);
      if parts[0] != "" {
        forall n | n in PrefixNames(parts[1..], longer) ensures n[..|path|] == path && n[|path|] == '/' {
          assert n[..|longer|] == longer;
          assert n[..|path|] == longer[..|path|] && n[|path|] == longer[|path|];
        }
      }
    }
  }

  lemma FirstComponentOf(part: string, n: string)
    requires '/' !in part && |part| < |n| && n[..|part| + 1] == "/" + part
    requires |n| == |part| + 1 || n[|part| + 1] == '/'
    ensures FirstComponent(n) == "/" + part
  {
    var rest := n[|part| + 1..];
    assert n == "/" + part + rest;
    assert n[1..] == part + rest;
    UpToSlashOf(part, rest);
  }

  lemma {:induction false} FirstOfNames(parts: seq<string>)
    requires forall i :: 0 <= i < |parts| ==> '/' !in parts[i]
    ensures forall n :: n in PrefixNames(parts, "") ==> n != "" && FirstComponent(n) == PrefixNames(parts, "")[0]
    decreases |parts|
  {
    if parts != [] {
      if parts[0] == "" {
        FirstOfNames(parts[1..]);
      } else {
        var first := "" + "/" + parts[0];
        assert first == "/" + parts[0];
        NamesExtend(parts[1..], first);
        FirstComponentOf(parts[0], first);
        forall n | n in PrefixNames(parts[1..], first) ensures n != "" && FirstComponent(n) == first {
          FirstComponentOf(parts[0], n);
        }
      }
    }
  }

  /** Two paths that need a common lock need the same first lock. */
  lemma SharedLockSharesFirst(p: Path, q: Path, name: string)
    requires name in LockNames(p) && name in LockNames(q)
    ensures LockNames(p)[0] == LockNames(q)[0]
  {
    FirstOfNames(Split(StripRight(StripLeft(p))));
    FirstOfNames(Split(StripRight(StripLeft(q))));
  }

  /** Two paths need a common lock exactly when they begin with the same component. */
  lemma SharedLockIff(p: Path, q: Path, c: string, d: string)
    requires BeginsWith(p, c) && BeginsWith(q, d)
    ensures (exists name :: name in LockNames(p) && name in LockNames(q)) <==> c == d
  {
    FirstLock(p, c);
    FirstLock(q, d);
    if name :| name in LockNames(p) && name in LockNames(q) {
      SharedLockSharesFirst(p, q, name);
      assert ("/" + c)[1..] == c && ("/" + d)[1..] == d;
    }
    if c == d { assert LockNames(p)[0] in LockNames(p) && LockNames(p)[0] in LockNames(q); }
  }

  lemma LockNamesDistinct(p: Path)
    ensures Distinct(LockNames(p))
  {
    NamesExtend(Split(StripRight(StripLeft(p))), "");
  }

  // ---- The protocol ----

  /** How far a handler with `n` locks to take has come: `n` acquisitions, one step
      inside, `n` releases. */
  type Progress = nat

  /** Handler `i` takes the locks `wants[i]` in order; `owner` says who holds each lock. */
  datatype Locks = Locks(wants: seq<seq<string>>, at: seq<Progress>, owner: map<string, nat>)

  /** Nobody takes a lock twice, and two who want a common lock want the same one first. */
  ghost predicate Nested(wants: seq<seq<string>>) {
    && (forall i :: 0 <= i < |wants| ==> Distinct(wants[i]))
    && (forall i, j, name :: 0 <= i < |wants| && 0 <= j < |wants| && name in wants[i] && name in wants[j] ==>
         wants[i][0] == wants[j][0])
  }

  function Needed(s: Locks, i: nat): nat
    requires i < |s.wants|
  {
    |s.wants[i]|
  }

  predicate Sensible(s: Locks) {
    |s.at| == |s.wants| && forall i :: 0 <= i < |s.at| ==> s.at[i] <= 2 * Needed(s, i) + 1
  }

  /** How many locks a handler holds. */
  function Held(s: Locks, i: nat): nat
    requires Sensible(s) && i < |s.wants|
  {
    var n := Needed(s, i);
    if s.at[i] <= n then s.at[i] else 2 * n + 1 - s.at[i]
  }

  /** All locks taken, the operation not yet done. */
  predicate Inside(s: Locks, i: nat)
    requires Sensible(s) && i < |s.wants|
  {
    s.at[i] == Needed(s, i)
  }

  predicate Finished(s: Locks, i: nat)
    requires Sensible(s) && i < |s.wants|
  {
    s.at[i] == 2 * Needed(s, i) + 1
  }

  /** A handler waits only for a lock somebody else holds. */
  predicate CanMove(s: Locks, i: nat)
    requires Sensible(s)
  {
    i < |s.wants| && !Finished(s, i) &&
    (s.at[i] < Needed(s, i) ==>
       var name := s.wants[i][s.at[i]];
       name !in s.owner || s.owner[name] == i)
  }

  function Move(s: Locks, i: nat): Locks
    requires Sensible(s) && CanMove(s, i)
  {
    var names, n := s.wants[i], Needed(s, i);
    var next := s.(at := s.at[i := s.at[i] + 1]);
    if s.at[i] < n then next.(owner := s.owner[names[s.at[i]] := i])
    else if s.at[i] == n then next
    else next.(owner := s.owner - {names[2 * n - s.at[i]]})  // in reverse order
  }

  function Start(paths: seq<Path>): Locks {
    Locks(seq(|paths|, i requires 0 <= i < |paths| => LockNames(paths[i])), seq(|paths|, _ => 0), map[])
  }

  /** Handler `i` owns the first locks of its list, as many as it holds. */
  ghost predicate HoldsPrefix(s: Locks, i: nat)
    requires Sensible(s) && i < |s.wants|
  {
    forall k :: 0 <= k < Held(s, i) ==> s.wants[i][k] in s.owner && s.owner[s.wants[i][k]] == i
  }

  /** A lock in the table is among those its owner holds. */
  ghost predicate HeldByOwner(s: Locks, name: string)
    requires Sensible(s)
  {
    name in s.owner ==> s.owner[name] < |s.wants| && name in s.wants[s.owner[name]][..Held(s, s.owner[name])]
  }

  /** The locks in the table are exactly, for each handler, a prefix of its names. */
  ghost predicate PrefixesHeld(s: Locks) {
    && Sensible(s) && Nested(s.wants)
    && (forall i :: 0 <= i < |s.wants| ==> HoldsPrefix(s, i))
    && (forall name :: HeldByOwner(s, name))
  }

  lemma HeldAfter(s: Locks, i: nat, j: nat)
    requires Sensible(s) && CanMove(s, i) && j < |s.wants|
    ensures Sensible(Move(s, i))
    ensures Held(Move(s, i), j) == Held(s, j) +
      if j != i || s.at[i] == Needed(s, i) then 0 else if s.at[i] < Needed(s, i) then 1 else -1
  {
  }

  lemma AcquireHoldsAt(s: Locks, i: nat, j: nat, k: nat)
    requires PrefixesHeld(s) && CanMove(s, i) && s.at[i] < Needed(s, i) && j < |s.wants|
    requires k < Held(s, j) || (j == i && k == s.at[i])
    ensures var name, owner := s.wants[j][k], Move(s, i).owner;
      name in owner && owner[name] == j
  {
    assert HoldsPrefix(s, j);
  }

  lemma AcquireHolds(s: Locks, i: nat, j: nat)
    requires PrefixesHeld(s) && CanMove(s, i) && s.at[i] < Needed(s, i) && j < |s.wants|
    ensures Sensible(Move(s, i)) && HoldsPrefix(Move(s, i), j)
  {
    HeldAfter(s, i, j);
    var t := Move(s, i);
    forall k | 0 <= k < Held(t, j)
      ensures s.wants[j][k] in t.owner && t.owner[s.wants[j][k]] == j
    {
      AcquireHoldsAt(s, i, j, k);
    }
  }

  lemma AcquireOwned(s: Locks, i: nat, other: string)
    requires PrefixesHeld(s) && CanMove(s, i) && s.at[i] < Needed(s, i)
    ensures Sensible(Move(s, i)) && HeldByOwner(Move(s, i), other)
  {
    var t, names, k := Move(s, i), s.wants[i], s.at[i];
    HeldAfter(s, i, i);
    assert HeldByOwner(s, other);
    if other == names[k] {
      assert names[..k + 1][k] == other;
    } else if other in s.owner {
      var j := s.owner[other];
      HeldAfter(s, i, j);
      assert s.wants[j][..Held(s, j)] <= s.wants[j][..Held(t, j)];
    }
  }

  lemma AcquireKeeps(s: Locks, i: nat)
    requires PrefixesHeld(s) && CanMove(s, i) && s.at[i] < Needed(s, i)
    ensures PrefixesHeld(Move(s, i))
  {
    HeldAfter(s, i, i);
    forall j | 0 <= j < |s.wants| ensures HoldsPrefix(Move(s, i), j) { AcquireHolds(s, i, j); }
    forall other ensures HeldByOwner(Move(s, i), other) { AcquireOwned(s, i, other); }
  }

  /** The lock a releasing handler gives back: the last of those it holds. */
  function Released(s: Locks, i: nat): string
    requires Sensible(s) && CanMove(s, i) && s.at[i] > Needed(s, i)
  {
    s.wants[i][2 * Needed(s, i) - s.at[i]]
  }

  lemma LastHeld(s: Locks, i: nat)
    requires Sensible(s) && Nested(s.wants) && CanMove(s, i) && s.at[i] > Needed(s, i)
    ensures var names, k := s.wants[i], Held(s, i) - 1;
      && k >= 0 && Sensible(Move(s, i)) && Held(Move(s, i), i) == k && names[k] == Released(s, i)
      && names[..k + 1] == names[..k] + [Released(s, i)] && Released(s, i) !in names[..k]
      && Move(s, i).owner == s.owner - {Released(s, i)}
  {
    HeldAfter(s, i, i);
  }

  lemma ReleaseHolds(s: Locks, i: nat, j: nat)
    requires PrefixesHeld(s) && CanMove(s, i) && s.at[i] > Needed(s, i) && j < |s.wants|
    ensures Sensible(Move(s, i)) && HoldsPrefix(Move(s, i), j)
  {
    LastHeld(s, i);
    HeldAfter(s, i, j);
    assert HoldsPrefix(s, i) && HoldsPrefix(s, j);
    var t, names := Move(s, i), s.wants[j];
    forall k | 0 <= k < Held(t, j) ensures names[k] in t.owner && t.owner[names[k]] == j {
      assert names[k] in s.owner && s.owner[names[k]] == j;
      assert j == i ==> names[..Held(t, i)][k] == names[k];
      assert j != i ==> s.owner[Released(s, i)] == i;
    }
  }

  lemma ReleaseOwned(s: Locks, i: nat, other: string)
    requires PrefixesHeld(s) && CanMove(s, i) && s.at[i] > Needed(s, i)
    ensures Sensible(Move(s, i)) && HeldByOwner(Move(s, i), other)
  {
    LastHeld(s, i);
    assert HeldByOwner(s, other);
    var t := Move(s, i);
    if other in t.owner { HeldAfter(s, i, t.owner[other]); }
  }

  lemma ReleaseKeeps(s: Locks, i: nat)
    requires PrefixesHeld(s) && CanMove(s, i) && s.at[i] > Needed(s, i)
    ensures PrefixesHeld(Move(s, i))
  {
    LastHeld(s, i);
    forall j | 0 <= j < |s.wants| ensures HoldsPrefix(Move(s, i), j) { ReleaseHolds(s, i, j); }
    forall other ensures HeldByOwner(Move(s, i), other) { ReleaseOwned(s, i, other); }
  }

  lemma MoveKeepsPrefixes(s: Locks, i: nat)
    requires PrefixesHeld(s) && CanMove(s, i)
    ensures PrefixesHeld(Move(s, i))
  {
    if s.at[i] < Needed(s, i) {
      AcquireKeeps(s, i);
    } else if s.at[i] > Needed(s, i) {
      ReleaseKeeps(s, i);
    } else {
      forall j | 0 <= j < |s.wants| ensures HoldsPrefix(Move(s, i), j) {
        HeldAfter(s, i, j);
        assert HoldsPrefix(s, j);
      }
      forall name ensures HeldByOwner(Move(s, i), name) {
        assert HeldByOwner(s, name);
        if name in s.owner { HeldAfter(s, i, s.owner[name]); }
      }
    }
  }

  /** A schedule says which handler moves next. */
  predicate Legal(s: Locks, schedule: seq<nat>)
    requires Sensible(s)
    decreases |schedule|
  {
    schedule == [] || (CanMove(s, schedule[0]) && Legal(Move(s, schedule[0]), schedule[1..]))
  }

  function Run(s: Locks, schedule: seq<nat>): (t: Locks)
    requires Sensible(s) && Legal(s, schedule)
    ensures Sensible(t) && t.wants == s.wants
    decreases |schedule|
  {
    if schedule == [] then s else Run(Move(s, schedule[0]), schedule[1..])
  }

  lemma {:induction false} RunKeepsPrefixes(s: Locks, schedule: seq<nat>)
    requires PrefixesHeld(s) && Legal(s, schedule)
    ensures PrefixesHeld(Run(s, schedule))
    decreases |schedule|
  {
    if schedule != [] {
      MoveKeepsPrefixes(s, schedule[0]);
      RunKeepsPrefixes(Move(s, schedule[0]), schedule[1..]);
    }
  }

  lemma StartHoldsNothing(paths: seq<Path>)
    ensures PrefixesHeld(Start(paths))
  {
    var wants := Start(paths).wants;
    forall i | 0 <= i < |wants| ensures Distinct(wants[i]) { LockNamesDistinct(paths[i]); }
    forall i, j, name | 0 <= i < |wants| && 0 <= j < |wants| && name in wants[i] && name in wants[j]
      ensures wants[i][0] == wants[j][0]
    {
      SharedLockSharesFirst(paths[i], paths[j], name);
    }
  }

  // ---- Exclusion ----

  lemma OneHolder(s: Locks, i: nat, j: nat)
    requires PrefixesHeld(s) && i < |s.wants| && j < |s.wants|
    requires Held(s, i) > 0 && Held(s, j) > 0
    requires s.wants[i][0] == s.wants[j][0]
    ensures i == j
  {
    assert HoldsPrefix(s, i) && HoldsPrefix(s, j);
    assert s.owner[s.wants[i][0]] == i;
    assert s.owner[s.wants[j][0]] == j;
  }

  lemma FirstLockExcludes(paths: seq<Path>, schedule: seq<nat>, i: nat, j: nat)
    requires Legal(Start(paths), schedule) && i < |paths| && j < |paths| && i != j
    requires LockNames(paths[i]) != [] && LockNames(paths[j]) != []
    requires LockNames(paths[i])[0] == LockNames(paths[j])[0]
    ensures var s := Run(Start(paths), schedule);
      && !(Inside(s, i) && Inside(s, j))
      && (forall name :: name in s.owner && s.owner[name] == i <==> name in LockNames(paths[i])[..Held(s, i)])
  {
    StartHoldsNothing(paths);
    RunKeepsPrefixes(Start(paths), schedule);
    var s := Run(Start(paths), schedule);
    if Held(s, i) > 0 && Held(s, j) > 0 { OneHolder(s, i, j); }
    forall name | name in LockNames(paths[i])[..Held(s, i)] ensures name in s.owner && s.owner[name] == i {
      var k :| 0 <= k < Held(s, i) && LockNames(paths[i])[..Held(s, i)][k] == name;
      assert HoldsPrefix(s, i) && s.wants[i][k] == name;
    }
    forall name | name in s.owner && s.owner[name] == i ensures name in LockNames(paths[i])[..Held(s, i)] {
      assert HeldByOwner(s, name);
    }
  }

  /** At any time, two handlers whose paths begin with the same component are never both
      inside, and the locks each one holds are exactly the first ones of its list. */
  lemma NeverBothInside(paths: seq<Path>, schedule: seq<nat>, i: nat, j: nat, c: string)
    requires Legal(Start(paths), schedule) && i < |paths| && j < |paths| && i != j
    requires BeginsWith(paths[i], c) && BeginsWith(paths[j], c)
    ensures var s := Run(Start(paths), schedule);
      && !(Inside(s, i) && Inside(s, j))
      && (forall name :: name in s.owner && s.owner[name] == i <==> name in LockNames(paths[i])[..Held(s, i)])
  {
    FirstLock(paths[i], c);
    FirstLock(paths[j], c);
    FirstLockExcludes(paths, schedule, i, j);
  }

  // ---- Progress ----

  /** A handler that holds its first lock never waits. */
  lemma HoldersNeverWait(s: Locks, i: nat)
    requires PrefixesHeld(s) && i < |s.wants| && Held(s, i) > 0
    ensures CanMove(s, i)
  {
    var names := s.wants[i];
    if s.at[i] < |names| {
      var name := names[s.at[i]];
      if name in s.owner {
        var j := s.owner[name];
        assert HeldByOwner(s, name);
        var theirs := s.wants[j];
        assert name in theirs[..Held(s, j)] && name in theirs;
        assert names[0] == theirs[0];
        OneHolder(s, i, j);
      }
    }
  }

  /** As long as somebody has not finished, somebody can move. */
  lemma NoDeadlock(s: Locks, i: nat) returns (j: nat)
    requires PrefixesHeld(s) && i < |s.wants| && !Finished(s, i)
    ensures CanMove(s, j)
  {
    if Held(s, i) > 0 {
      HoldersNeverWait(s, i);
      return i;
    }
    var names := s.wants[i];
    if names == [] || names[0] !in s.owner { return i; }
    j := s.owner[names[0]];
    assert HeldByOwner(s, names[0]);
    assert names[0] in s.wants[j][..Held(s, j)];
    HoldersNeverWait(s, j);
  }

  /** The steps handler `i` has still to take. */
  function Left(s: Locks, i: nat): nat
    requires Sensible(s) && i < |s.wants|
  {
    2 * Needed(s, i) + 1 - s.at[i]
  }

  function Total(counts: seq<nat>): nat
    decreases |counts|
  {
    if counts == [] then 0 else Total(Init(counts)) + Last(counts)
  }

  function AllLeft(s: Locks): (counts: seq<nat>)
    requires Sensible(s)
    ensures |counts| == |s.wants|
  {
    seq(|s.wants|, i requires 0 <= i < |s.wants| => Left(s, i))
  }

  /** The steps still to be taken by anybody. */
  function Remaining(s: Locks): nat
    requires Sensible(s)
  {
    Total(AllLeft(s))
  }

  lemma {:induction false} OneLess(counts: seq<nat>, i: nat)
    requires i < |counts| && counts[i] > 0
    ensures Total(counts[i := counts[i] - 1]) == Total(counts) - 1
    decreases |counts|
  {
    var less := counts[i := counts[i] - 1];
    if i == |counts| - 1 {
      assert Init(less) == Init(counts);
    } else {
      assert Init(less) == Init(counts)[i := counts[i] - 1];
      OneLess(Init(counts), i);
    }
  }

  lemma {:induction false} NothingLeft(counts: seq<nat>)
    ensures Total(counts) == 0 <==> forall i :: 0 <= i < |counts| ==> counts[i] == 0
    decreases |counts|
  {
    if counts != [] {
      NothingLeft(Init(counts));
      assert forall i :: 0 <= i < |counts| - 1 ==> Init(counts)[i] == counts[i];
    }
  }

  /** `t` is `s` with one step of handler `i` taken. */
  ghost predicate OneStepTaken(s: Locks, t: Locks, i: nat)
    requires Sensible(s) && i < |s.wants|
  {
    Sensible(t) && t.wants == s.wants && t.at == s.at[i := s.at[i] + 1]
  }

  lemma LeftsDiffer(s: Locks, t: Locks, i: nat)
    requires Sensible(s) && i < |s.wants| && OneStepTaken(s, t, i)
    ensures Left(s, i) > 0 && AllLeft(t) == AllLeft(s)[i := Left(s, i) - 1]
  {
    assert forall j :: 0 <= j < |s.wants| ==> AllLeft(t)[j] == Left(t, j) && AllLeft(s)[j] == Left(s, j);
  }

  lemma MoveTakesStep(s: Locks, i: nat)
    requires Sensible(s) && CanMove(s, i)
    ensures OneStepTaken(s, Move(s, i), i)
  {
  }

  lemma MoveCountsDown(s: Locks, i: nat)
    requires Sensible(s) && CanMove(s, i)
    ensures Sensible(Move(s, i)) && Remaining(Move(s, i)) == Remaining(s) - 1
  {
    MoveTakesStep(s, i);
    LeftsDiffer(s, Move(s, i), i);
    OneLess(AllLeft(s), i);
  }

  lemma NothingRemains(s: Locks)
    requires Sensible(s)
    ensures Remaining(s) == 0 <==> forall i :: 0 <= i < |s.wants| ==> Finished(s, i)
  {
    NothingLeft(AllLeft(s));
    forall i | 0 <= i < |s.wants| ensures AllLeft(s)[i] == 0 <==> Finished(s, i) {
      assert AllLeft(s)[i] == Left(s, i);
    }
  }

  lemma {:induction false} RunCountsDown(s: Locks, schedule: seq<nat>)
    requires Sensible(s) && Legal(s, schedule)
    ensures Remaining(Run(s, schedule)) == Remaining(s) - |schedule|
    decreases |schedule|
  {
    if schedule != [] {
      MoveCountsDown(s, schedule[0]);
      RunCountsDown(Move(s, schedule[0]), schedule[1..]);
    }
  }

  /** Every schedule is finite, and one that cannot be continued has taken exactly the
      steps there were and left every handler finished. */
  lemma {:induction false} EveryHandlerFinishes(paths: seq<Path>, schedule: seq<nat>)
    requires Legal(Start(paths), schedule)
    ensures var s, total := Run(Start(paths), schedule), Remaining(Start(paths));
      && |schedule| <= total
      && ((forall j: nat :: !CanMove(s, j)) <==> |schedule| == total)
      && (|schedule| == total <==> forall i :: 0 <= i < |paths| ==> Finished(s, i))
  {
    var s := Run(Start(paths), schedule);
    StartHoldsNothing(paths);
    RunKeepsPrefixes(Start(paths), schedule);
    RunCountsDown(Start(paths), schedule);
    NothingRemains(s);
    if exists i :: 0 <= i < |paths| && !Finished(s, i) {
      var i :| 0 <= i < |paths| && !Finished(s, i);
      var j := NoDeadlock(s, i);
    }
  }
}
