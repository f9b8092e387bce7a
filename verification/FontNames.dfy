/** Registration of Windows font names from fontpath.c: `RegistryToBaseTTNameW` and `registerFontW`. */
module FontNames {

  const NUL: char := '\0'

  /** The buffer holds the C string s. */
  ghost predicate CString(buffer: seq<char>, s: string) {
    |s| < |buffer| && buffer[..|s|] == s && buffer[|s|] == NUL && NUL !in s
  }

  predicate SepAt(s: string, i: int) {
    0 <= i && i + 3 <= |s| && s[i] == ' ' && s[i + 1] == '&' && s[i + 2] == ' '
  }

  /** The first " & " at or after `from`, or -1. */
  function First(s: string, from: nat): (i: int)
    ensures -1 <= i && (i >= 0 ==> from <= i && i + 3 <= |s|)
    decreases |s| - from
  {
    if from + 3 > |s| then -1 else if SepAt(s, from) then from else First(s, from + 1)
  }

  lemma {:induction false} FirstSpec(s: string, from: nat)
    ensures First(s, from) >= 0 ==> SepAt(s, First(s, from)) && forall j :: from <= j < First(s, from) ==> !SepAt(s, j)
    ensures First(s, from) < 0 ==> forall j :: from <= j ==> !SepAt(s, j)
    decreases |s| - from
  {
    if from + 3 <= |s| && !SepAt(s, from) {
      FirstSpec(s, from + 1);
    }
  }

  lemma FirstIs(s: string, from: nat, i: nat)
    requires from <= i && SepAt(s, i) && forall j :: from <= j < i ==> !SepAt(s, j)
    ensures First(s, from) == i
  {
    FirstSpec(s, from);
  }

  /** The greedy left-to-right split of s on " & ", starting at `from`. */
  function SplitFrom(s: string, from: nat): (cs: seq<string>)
    requires from <= |s|
    ensures |cs| > 0
    decreases |s| - from
  {
    var i := First(s, from);
    if i < 0 then [s[from..]] else [s[from..i]] + SplitFrom(s, i + 3)
  }

  function Split(s: string): seq<string> {
    SplitFrom(s, 0)
  }

  const SEPARATOR: string := " & "

  function Join(cs: seq<string>): string {
    if |cs| == 0 then "" else if |cs| == 1 then cs[0] else cs[0] + SEPARATOR + Join(cs[1..])
  }

  /** Joining the components gives the name back. */
  lemma {:induction false} JoinSplit(s: string, from: nat)
    requires from <= |s|
    ensures Join(SplitFrom(s, from)) == s[from..]
    decreases |s| - from
  {
    var i := First(s, from);
    FirstSpec(s, from);
    if i >= 0 {
      JoinSplit(s, i + 3);
      var rest := SplitFrom(s, i + 3);
      assert SplitFrom(s, from)[1..] == rest;
      assert s[from..] == s[from..i] + SEPARATOR + s[i + 3..];
    }
  }

  /** No component but the last could be cut earlier, and the last not at all. */
  ghost predicate Greedy(cs: seq<string>) {
    |cs| > 0 && First(cs[|cs| - 1], 0) < 0 && forall k :: 0 <= k < |cs| - 1 ==> First(cs[k] + SEPARATOR, 0) == |cs[k]|
  }

  lemma FirstPrefix(s: string, t: string, from: nat)
    requires from <= |s| <= |t| && t[..|s|] == s
    ensures First(s, from) >= 0 ==> First(t, from) == First(s, from)
    ensures 0 <= First(t, from) <= |s| - 3 ==> First(s, from) == First(t, from)
  {
    FirstSpec(s, from);
    FirstSpec(t, from);
    assert forall j :: 0 <= j && j + 3 <= |s| ==> (SepAt(s, j) <==> SepAt(t, j));
  }

  lemma FirstShift(s: string, p: nat)
    requires p <= |s|
    ensures First(s, p) == if First(s[p..], 0) < 0 then -1 else First(s[p..], 0) + p
  {
    FirstSpec(s, p);
    FirstSpec(s[p..], 0);
    assert forall j :: 0 <= j ==> (SepAt(s[p..], j) <==> SepAt(s, j + p));
    var a, b := First(s[p..], 0), First(s, p);
    if a >= 0 {
      assert SepAt(s, a + p);
    }
    if b >= 0 {
      assert SepAt(s[p..], b - p);
    }
  }

  lemma SplitStep(s: string, from: nat, i: nat)
    requires from <= |s| && First(s, from) == i
    ensures SplitFrom(s, from) == [s[from..i]] + SplitFrom(s, i + 3)
  {
  }

  lemma {:induction false} SplitShift(s: string, p: nat)
    requires p <= |s|
    ensures SplitFrom(s, p) == Split(s[p..])
    decreases |s| - p
  {
    FirstShift(s, p);
    var t := s[p..];
    var i := First(t, 0);
    if i < 0 {
      assert t[0..] == t;
    } else {
      SplitShift(s, p + i + 3);
      SplitShift(t, i + 3);
      assert t[i + 3..] == s[p + i + 3..] && t[0..i] == s[p..p + i];
      SplitStep(s, p, p + i);
      SplitStep(t, 0, i);
    }
  }

  /** The split of a name is greedy. */
  lemma {:induction false} SplitIsGreedy(s: string, from: nat)
    requires from <= |s|
    ensures Greedy(SplitFrom(s, from))
    decreases |s| - from
  {
    FirstShift(s, from);
    FirstSpec(s, from);
    var i := First(s, from);
    if i >= 0 {
      SplitIsGreedy(s, i + 3);
      var cs, rest := SplitFrom(s, from), SplitFrom(s, i + 3);
      var head := cs[0] + SEPARATOR;
      assert head == s[from..][..i - from + 3] && SepAt(head, i - from);
      FirstPrefix(head, s[from..], 0);
      assert First(head, 0) == |cs[0]|;
      forall k | 0 <= k < |cs| - 1
        ensures First(cs[k] + SEPARATOR, 0) == |cs[k]|
      {
        assert k > 0 ==> cs[k] == rest[k - 1];
      }
    }
  }

  lemma SplitHead(s: string, c: string)
    requires |c| + 3 <= |s| && First(s, 0) == |c| && s[..|c|] == c
    ensures Split(s) == [c] + Split(s[|c| + 3..])
  {
    SplitShift(s, |c| + 3);
    assert s[0..|c|] == c;
  }

  /** A greedy list of components is recovered from its join, so the split loses nothing. */
  lemma {:induction false} SplitJoin(cs: seq<string>)
    requires Greedy(cs)
    ensures Split(Join(cs)) == cs
    decreases |cs|
  {
    if |cs| == 1 {
      assert cs[0][0..] == cs[0];
    } else {
      var rest := cs[1..];
      assert forall k :: 0 <= k < |rest| - 1 ==> rest[k] == cs[k + 1];
      SplitJoin(rest);
      var s, head := Join(cs), cs[0] + SEPARATOR;
      assert s == head + Join(rest) && s[..|head|] == head && s[|head|..] == Join(rest);
      FirstPrefix(head, s, 0);
      SplitHead(s, cs[0]);
      assert [cs[0]] + rest == cs;
    }
  }

  /** Where the last component starts. */
  function LastStart(s: string, from: nat): (p: nat)
    requires from <= |s|
    ensures p == from || from + 3 <= p <= |s|
    decreases |s| - from
  {
    var i := First(s, from);
    if i < 0 then from else LastStart(s, i + 3)
  }

  /** Cutting the last component off leaves the split of what stands before its separator. */
  lemma {:induction false} SplitLast(s: string, from: nat, p: nat)
    requires from <= |s| && p == LastStart(s, from)
    ensures p == from ==> SplitFrom(s, from) == [s[from..]]
    ensures p != from ==> SplitFrom(s, from) == SplitFrom(s[..p - 3], from) + [s[p..]]
    decreases |s| - from
  {
    var i := First(s, from);
    if i >= 0 {
      SplitLast(s, i + 3, p);
      if p == i + 3 {
        CutAt(s, from, i, p);
      } else {
        CutAfter(s, from, i, p);
      }
    }
  }

  lemma Regroup<T>(a: seq<T>, b: seq<T>, c: seq<T>)
    ensures a + (b + c) == (a + b) + c
  {
  }

  lemma CutAt(s: string, from: nat, i: nat, p: nat)
    requires from <= i == First(s, from) && p == i + 3 && SplitFrom(s, p) == [s[p..]]
    ensures SplitFrom(s, from) == SplitFrom(s[..p - 3], from) + [s[p..]]
  {
    FirstPrefix(s[..i], s, from);
    assert s[..i][from..] == s[from..i];
  }

  lemma CutAfter(s: string, from: nat, i: nat, p: nat)
    requires from <= i == First(s, from) && i + 6 <= p <= |s|
    requires SplitFrom(s, i + 3) == SplitFrom(s[..p - 3], i + 3) + [s[p..]]
    ensures SplitFrom(s, from) == SplitFrom(s[..p - 3], from) + [s[p..]]
  {
    FirstPrefix(s[..p - 3], s, from);
    assert s[..p - 3][from..i] == s[from..i];
    Regroup([s[from..i]], SplitFrom(s[..p - 3], i + 3), [s[p..]]);
  }

  /** `wcsstr(name + from, " & ")`: the offset of the match, or -1 for NULL. */
  method FindSeparator(name: array<char>, from: nat, ghost s: string) returns (i: int)
    requires CString(name[..], s) && from <= |s|
    ensures i == First(s, from)
  {
    i := from;
    while name[i] != NUL
      invariant from <= i <= |s|
      invariant forall j :: from <= j < i ==> !SepAt(s, j)
      decreases |s| - i
    {
      assert name[..][i] == name[i];
      if name[i] == ' ' && name[i + 1] == '&' && name[i + 2] == ' ' {
        assert name[i + 1] == name[..][i + 1] && name[i + 2] == name[..][i + 2];
        FirstIs(s, from, i);
        return;
      }
      assert !SepAt(s, i);
      i := i + 1;
    }
    FirstSpec(s, from);
    i := -1;
  }

  /** `wcslen` and `NewString`: the C string that starts at `from`. */
  method NewString(name: array<char>, from: nat, ghost s: string) returns (r: string)
    requires CString(name[..], s) && from <= |s|
    ensures r == s[from..]
  {
    var n := from;
    while name[n] != NUL
      invariant from <= n <= |s|
      decreases |s| - n
    {
      assert name[..][n] == name[n];
      n := n + 1;
    }
    assert n == |s|;
    r := name[from..n];
  }

  /** The Java map from lower-case font names to files, with the order of the puts. */
  class FontToFileMap {
    var entries: map<string, string>
    ghost var puts: seq<(string, string)>

    constructor ()
      ensures entries == map[] && puts == []
    {
      entries := map[];
      puts := [];
    }

    method Put(key: string, file: string)
      modifies this
      ensures entries == old(entries)[key := file] && puts == old(puts) + [(key, file)]
    {
      entries := entries[key := file];
      puts := puts + [(key, file)];
    }
  }

  /** The puts for a list of components, last component first. */
  function PutsFor(cs: seq<string>, lower: string -> string, file: string): (puts: seq<(string, string)>)
    ensures |puts| == |cs|
  {
    if cs == [] then [] else [(lower(cs[|cs| - 1]), file)] + PutsFor(cs[..|cs| - 1], lower, file)
  }

  /** The k-th put is for the k-th component from the end. */
  lemma {:induction false} PutAt(cs: seq<string>, lower: string -> string, file: string, k: nat)
    requires k < |cs|
    ensures PutsFor(cs, lower, file)[k] == (lower(cs[|cs| - 1 - k]), file)
    decreases |cs|
  {
    if k > 0 {
      PutAt(cs[..|cs| - 1], lower, file, k - 1);
    }
  }

  /** A file whose name ends in C or c is a collection. */
  predicate Collection(data: string) {
    data != "" && (data[|data| - 1] == 'C' || data[|data| - 1] == 'c')
  }

  /** The puts from `from` on are, last first, those of the given components. */
  predicate PutsAre(puts: seq<(string, string)>, from: nat, cs: seq<string>, lower: string -> string, file: string) {
    |puts| == from + |cs| && forall i :: from <= i < |puts| ==> puts[i] == (lower(cs[|cs| - 1 - (i - from)]), file)
  }

  lemma AllPuts(before: seq<(string, string)>, puts: seq<(string, string)>, cs: seq<string>, lower: string -> string,
                file: string)
    requires puts == before + PutsFor(cs, lower, file)
    ensures PutsAre(puts, |before|, cs, lower, file)
  {
    forall i | |before| <= i < |puts|
      ensures puts[i] == (lower(cs[|cs| - 1 - (i - |before|)]), file)
    {
      PutAt(cs, lower, file, i - |before|);
    }
  }

  /** Splitting the registry name of a collection of three. */
  lemma SplitExample()
    ensures Split("A & B & C") == ["A", "B", "C"] && Split("A&B") == ["A&B"]
  {
    var s := "A & B & C";
    FirstIs(s, 0, 1);
    FirstIs(s, 4, 5);
    FirstSpec(s, 8);
    assert s[0..1] == "A" && s[4..5] == "B" && s[8..] == "C";
    assert SplitFrom(s, 8) == ["C"];
    assert SplitFrom(s, 4) == ["B"] + ["C"];
    assert "A&B"[0..] == "A&B";
    FirstSpec("A&B", 0);
  }

  ghost predicate Registered(before: map<string, string>, after: map<string, string>, cs: seq<string>,
                             lower: string -> string, file: string) {
    && (forall c :: c in cs ==> lower(c) in after && after[lower(c)] == file)
    && (forall k :: k in before ==> k in after)
    && (forall k :: k in after ==> (exists c :: c in cs && lower(c) == k) || (k in before && after[k] == before[k]))
  }

  /** The names a file is registered under: all components for a collection, else the whole name. */
  function Names(s: string, data: string): seq<string>
    requires data != ""
  {
    if data[|data| - 1] == 'C' || data[|data| - 1] == 'c' then Split(s) else [s]
  }

  lemma PutOne(before: map<string, string>, after: map<string, string>, cs: seq<string>, c: string, cs': seq<string>,
               lower: string -> string, file: string)
    requires Registered(before, after, cs, lower, file) && cs' == [c] + cs
    ensures Registered(before, after[lower(c) := file], cs', lower, file)
  {
    var after' := after[lower(c) := file];
    assert cs'[0] == c && cs'[1..] == cs;
    forall k | k in after'
      ensures (exists d :: d in cs' && lower(d) == k) || (k in before && after'[k] == before[k])
    {
      if k == lower(c) {
        assert c in cs' && lower(c) == k;
      } else if exists d :: d in cs && lower(d) == k {
        var d :| d in cs && lower(d) == k;
        assert d in cs';
      }
    }
  }

  /** The last k components, or all if there are fewer. */
  function LastOf(cs: seq<string>, k: nat): seq<string> {
    if k < |cs| then cs[|cs| - k..] else cs
  }

  /** The first k puts, or all if there are fewer. */
  function FirstOf(puts: seq<(string, string)>, k: nat): seq<(string, string)> {
    if k < |puts| then puts[..k] else puts
  }

  /** What registration leaves behind when it stops before a component: those after it, and their puts. */
  lemma StoppedAt(rest: seq<string>, done: seq<string>, cs: seq<string>, before: seq<(string, string)>,
                  puts: seq<(string, string)>, lower: string -> string, file: string)
    requires cs == rest + done && puts + PutsFor(rest, lower, file) == before + PutsFor(cs, lower, file)
    ensures LastOf(cs, |done|) == done && puts == before + FirstOf(PutsFor(cs, lower, file), |done|)
  {
    var all := before + PutsFor(cs, lower, file);
    assert all[..|puts|] == puts;
  }

  method RegisterOne(fonts: FontToFileMap, c: string, data: string, lower: string -> string,
                     ghost before: map<string, string>, ghost done: seq<string>)
    requires Registered(before, fonts.entries, done, lower, data)
    modifies fonts
    ensures Registered(before, fonts.entries, [c] + done, lower, data)
    ensures fonts.puts == old(fonts.puts) + [(lower(c), data)]
  {
    PutOne(before, fonts.entries, done, c, [c] + done, lower, data);
    fonts.Put(lower(c), data);
  }

  /** The part of a name before its last separator, or nothing. */
  ghost function Cut(s: string, p: nat): (t: string)
    requires p <= |s|
    ensures p >= 3 ==> |t| == p - 3
  {
    if p < 3 then "" else s[..p - 3]
  }

  /** One step of the outer loop on the specification side: the last component is registered first. */
  lemma LastFirst(s: string, p: nat, c: string, done: seq<string>, puts: seq<(string, string)>,
                  lower: string -> string, file: string)
    requires p == LastStart(s, 0) <= |s| && c == s[p..]
    ensures p == 0 ==>
              Split(s) + done == [c] + done && puts + PutsFor(Split(s), lower, file) == puts + [(lower(c), file)]
    ensures p != 0 ==> p >= 3 && Split(s) + done == Split(Cut(s, p)) + ([c] + done)
    ensures p != 0 ==>
              puts + PutsFor(Split(s), lower, file)
              == (puts + [(lower(c), file)]) + PutsFor(Split(Cut(s, p)), lower, file)
  {
    SplitLast(s, 0, p);
    var init := if p == 0 then [] else Split(Cut(s, p));
    assert Split(s) == init + [c];
    assert Split(s)[..|init|] == init;
    assert PutsFor(Split(s), lower, file) == [(lower(c), file)] + PutsFor(init, lower, file);
    Regroup(init, [c], done);
    Regroup(puts, [(lower(c), file)], PutsFor(init, lower, file));
  }

  /** Registration in progress: `done` is registered, the components of `cur` are still to come. */
  ghost predicate Underway(entries: map<string, string>, puts: seq<(string, string)>, fonts: FontToFileMap,
                           all: seq<string>, cur: string, done: seq<string>, lower: string -> string, file: string)
    reads fonts
  {
    && all == Split(cur) + done
    && Registered(entries, fonts.entries, done, lower, file)
    && fonts.puts + PutsFor(Split(cur), lower, file) == puts + PutsFor(all, lower, file)
  }

  /** Registers the last component, which starts at p. */
  method RegisterLast(fonts: FontToFileMap, c: string, data: string, lower: string -> string,
                      ghost entries: map<string, string>, ghost puts: seq<(string, string)>,
                      ghost all: seq<string>, ghost cur: string, ghost p: nat, ghost done: seq<string>)
    requires Underway(entries, puts, fonts, all, cur, done, lower, data) && p == LastStart(cur, 0) <= |cur|
    requires c == cur[p..]
    modifies fonts
    ensures p != 0 ==> p >= 3 && Underway(entries, puts, fonts, all, Cut(cur, p), [c] + done, lower, data)
    ensures p == 0 ==> all == [c] + done && Registered(entries, fonts.entries, all, lower, data)
                       && fonts.puts == puts + PutsFor(all, lower, data)
  {
    LastFirst(cur, p, c, done, fonts.puts, lower, data);
    RegisterOne(fonts, c, data, lower, entries, done);
  }

  /**
   * The nested loops: rescan from the left for the last separator, register what follows it and
   * truncate the name there, until the name has no separator left or a call into Java fails after
   * `allowed` names.
   */
  method RegisterCollection(fonts: FontToFileMap, name: array<char>, data: string, lower: string -> string,
                            first: nat, allowed: nat, ghost s: string)
    requires CString(name[..], s) && first == First(s, 0)
    modifies fonts, name
    ensures Registered(old(fonts.entries), fonts.entries, LastOf(Split(s), allowed), lower, data)
    ensures fonts.puts == old(fonts.puts) + FirstOf(PutsFor(Split(s), lower, data), allowed)
  {
    var ptr1: nat, left: nat := first + 3, allowed;
    ghost var cur, done: seq<string>, all := s, [], Split(s);
    while true
      invariant CString(name[..], cur) && ptr1 <= |cur| && LastStart(cur, ptr1) == LastStart(cur, 0)
      invariant left + |done| == allowed
      invariant Underway(old(fonts.entries), old(fonts.puts), fonts, all, cur, done, lower, data)
      decreases |cur|
    {
      ptr1 := LastComponent(name, ptr1, cur);
      if left == 0 {
        StoppedAt(Split(cur), done, all, old(fonts.puts), fonts.puts, lower, data);
        return;
      }
      left := left - 1;
      var fontStr := NewString(name, ptr1, cur);
      RegisterLast(fonts, fontStr, data, lower, old(fonts.entries), old(fonts.puts), all, cur, ptr1, done);
      done := [fontStr] + done;
      if ptr1 == 0 {
        return;
      }
      name[ptr1 - 3] := NUL;
      Truncated(name[..], cur, Cut(cur, ptr1));
      cur := Cut(cur, ptr1);
      ptr1 := 0;
    }
  }

  lemma Truncated(buffer: seq<char>, s: string, t: string)
    requires |t| < |s| < |buffer| && t == s[..|t|] && NUL !in s && buffer[..|t|] == t && buffer[|t|] == NUL
    ensures CString(buffer, t)
  {
  }

  /** The inner loop. */
  method LastComponent(name: array<char>, from: nat, ghost s: string) returns (ptr1: nat)
    requires CString(name[..], s) && from <= |s|
    ensures ptr1 == LastStart(s, from) && ptr1 <= |s|
  {
    ptr1 := from;
    var ptr2 := FindSeparator(name, ptr1, s);
    while ptr2 >= 0
      invariant ptr1 <= |s| && ptr2 == First(s, ptr1) && LastStart(s, ptr1) == LastStart(s, from)
      decreases |s| - ptr1
    {
      ptr1 := ptr2 + 3;
      ptr2 := FindSeparator(name, ptr1, s);
    }
  }

  /** Registers a file's names; a call into Java fails after `allowed` of them, if there are as many. */
  method RegisterFont(fonts: FontToFileMap, name: array<char>, data: string, lower: string -> string, allowed: nat,
                      ghost s: string)
    requires CString(name[..], s) && data != ""
    modifies fonts, name
    ensures Registered(old(fonts.entries), fonts.entries, LastOf(Names(s, data), allowed), lower, data)
    ensures fonts.puts == old(fonts.puts) + FirstOf(PutsFor(Names(s, data), lower, data), allowed)
    ensures Collection(data) && |Split(s)| <= allowed ==>
              PutsAre(fonts.puts, |old(fonts.puts)|, Split(s), lower, data)
    ensures !Collection(data) && 1 <= allowed ==> PutsAre(fonts.puts, |old(fonts.puts)|, [s], lower, data)
  {
    RegisterNames(fonts, name, data, lower, allowed, s);
    if |Names(s, data)| <= allowed {
      AllPuts(old(fonts.puts), fonts.puts, Names(s, data), lower, data);
    }
  }

  method RegisterNames(fonts: FontToFileMap, name: array<char>, data: string, lower: string -> string, allowed: nat,
                       ghost s: string)
    requires CString(name[..], s) && data != ""
    modifies fonts, name
    ensures Registered(old(fonts.entries), fonts.entries, LastOf(Names(s, data), allowed), lower, data)
    ensures fonts.puts == old(fonts.puts) + FirstOf(PutsFor(Names(s, data), lower, data), allowed)
  {
    var last := data[|data| - 1];
    if last == 'C' || last == 'c' {
      var first := FindSeparator(name, 0, s);
      if first >= 0 {
        RegisterCollection(fonts, name, data, lower, first, allowed, s);
        return;
      }
    }
    var fontStr := NewString(name, 0, s);
    assert Names(s, data) == [fontStr] == [fontStr] + [];
    if allowed == 0 {
      assert LastOf([fontStr], 0) == [];
      return;
    }
    assert PutsFor([fontStr], lower, data) == [(lower(fontStr), data)] + PutsFor([], lower, data);
    RegisterOne(fonts, fontStr, data, lower, fonts.entries, []);
  }

  const TTSUFFIX: string := " (TrueType)"

  /** Truncates a name that ends in " (TrueType)" and is longer than that; leaves any other name alone. */
  method RegistryToBaseTTName(name: array<char>, ghost s: string) returns (ok: bool, ghost base: string)
    requires CString(name[..], s)
    modifies name
    ensures ok <==> |s| > 11 && s[|s| - 11..] == " (TrueType)"
    ensures ok ==> s == base + " (TrueType)" && CString(name[..], base)
    ensures !ok ==> base == s && name[..] == old(name[..])
  {
    var n := NewString(name, 0, s);
    assert n == s;
    var len, slen := |n|, |TTSUFFIX|;
    base := s;
    if len == 0 {
      return false, s;
    }
    if n[len - 1] != ')' {
      assert |s| > slen ==> s[|s| - slen..][slen - 1] != TTSUFFIX[slen - 1];
      return false, s;
    }
    if len <= slen {
      return false, s;
    }
    if n[len - slen..] == TTSUFFIX {
      name[len - slen] := NUL;
      base := s[..len - slen];
      assert s == base + s[len - slen..];
      Truncated(name[..], s, base);
      return true, base;
    }
    return false, s;
  }
}
