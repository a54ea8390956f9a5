/**
 * The collective mood of a journal (`getCollectiveMood` in src/services/sentiment.ts).
 *
 * The journal list is stored newest first, so its first seven entries are the
 * most recent ones. Their emotion labels are lower-cased and trimmed, labels
 * that report an analysis failure are dropped, the rest are counted in a map
 * that remembers insertion order, and the most frequent label wins; on a tie
 * the label counted first wins, because a later one must be strictly more
 * frequent to replace it. The winner is returned with its first letter upper-cased.
 *
 * Case mapping and trimming are modelled on ASCII only.
 */
module Sentiment {
  import opened Storage

  const Neutral := "Neutral"
  const Mixed := "Mixed"
  const WindowSize := 7

  // ---------------------------------------------------------------------------
  // Cleaning a label: `emotion.toLowerCase().trim()`
  // ---------------------------------------------------------------------------

  function LowerChar(c: char): char {
    if 'A' <= c <= 'Z' then (c as int + 32) as char else c
  }

  function UpperChar(c: char): char {
    if 'a' <= c <= 'z' then (c as int - 32) as char else c
  }

  function ToLower(s: string): string {
    seq(|s|, i requires 0 <= i < |s| => LowerChar(s[i]))
  }

  /** Space, tab, line feed, vertical tab, form feed and carriage return. */
  predicate IsSpace(c: char) {
    c == ' ' || 9 <= c as int <= 13
  }

  function TrimStart(s: string): string
    decreases |s|
  {
    if s != [] && IsSpace(s[0]) then TrimStart(s[1..]) else s
  }

  function TrimEnd(s: string): string
    decreases |s|
  {
    if s != [] && IsSpace(s[|s| - 1]) then TrimEnd(s[..|s| - 1]) else s
  }

  /** `emotion.toLowerCase().trim()` */
  function Clean(emotion: string): string {
    TrimEnd(TrimStart(ToLower(emotion)))
  }

  /** `trimStart` keeps a suffix of the text that does not start with white space. */
  lemma {:induction false} TrimStartSuffix(s: string)
    ensures var r := TrimStart(s);
      && |r| <= |s| && r == s[|s| - |r|..] && (r == [] || !IsSpace(r[0]))
      && forall i :: 0 <= i < |s| - |r| ==> IsSpace(s[i])
    decreases |s|
  {
    if s != [] && IsSpace(s[0]) {
      TrimStartSuffix(s[1..]);
    }
  }

  /** `trimEnd` keeps a prefix of the text that does not end with white space. */
  lemma {:induction false} TrimEndPrefix(s: string)
    ensures var r := TrimEnd(s);
      && |r| <= |s| && r == s[..|r|] && (r == [] || !IsSpace(r[|r| - 1]))
      && forall i :: |r| <= i < |s| ==> IsSpace(s[i])
    decreases |s|
  {
    if s != [] && IsSpace(s[|s| - 1]) {
      TrimEndPrefix(s[..|s| - 1]);
    }
  }

  /** A cleaned label has no capital letter and no white space at either end. */
  lemma CleanShape(emotion: string)
    ensures var e := Clean(emotion);
      && (forall i :: 0 <= i < |e| ==> !('A' <= e[i] <= 'Z'))
      && (e == [] || (!IsSpace(e[0]) && !IsSpace(e[|e| - 1])))
  {
    var l := ToLower(emotion);
    TrimStartSuffix(l);
    var t := TrimStart(l);
    TrimEndPrefix(t);
  }

  /** A label with no capital letter and no white space at either end is its own cleaned form. */
  lemma CleanFixedPoint(e: string)
    requires forall i :: 0 <= i < |e| ==> !('A' <= e[i] <= 'Z')
    requires e == [] || (!IsSpace(e[0]) && !IsSpace(e[|e| - 1]))
    ensures Clean(e) == e
  {
    assert ToLower(e) == e;
  }

  /** Cleaning a cleaned label changes nothing. */
  lemma CleanIdempotent(emotion: string)
    ensures Clean(Clean(emotion)) == Clean(emotion)
  {
    var e := Clean(emotion);
    CleanShape(emotion);
    CleanFixedPoint(e);
  }

  /** `s.includes(w)` */
  predicate Contains(s: string, w: string)
    decreases |s|
  {
    w <= s || (s != [] && Contains(s[1..], w))
  }

  /** Labels that report a failed or pending analysis rather than an emotion. */
  predicate Skipped(e: string) {
    Contains(e, "error") || Contains(e, "loading") || Contains(e, "missing")
  }

  // ---------------------------------------------------------------------------
  // The specification
  // ---------------------------------------------------------------------------

  /** The cleaned labels of one entry that are counted, in order. */
  function Kept(labels: seq<string>): (r: seq<string>)
    ensures forall x :: x in r ==> !Skipped(x)
  {
    if labels == [] then []
    else
      var e := Clean(labels[|labels| - 1]);
      Kept(labels[..|labels| - 1]) + (if Skipped(e) then [] else [e])
  }

  /** Every label counted over a list of entries, in counting order. */
  function Counted(entries: seq<JournalEntry>): (r: seq<string>)
    ensures forall x :: x in r ==> !Skipped(x)
  {
    if entries == [] then []
    else Counted(entries[..|entries| - 1]) + Kept(entries[|entries| - 1].emotions)
  }

  /** `entries.slice(0, 7)` */
  function Recent(entries: seq<JournalEntry>): (r: seq<JournalEntry>)
    ensures |r| == if |entries| < WindowSize then |entries| else WindowSize
    ensures r <= entries
  {
    entries[..if |entries| < WindowSize then |entries| else WindowSize]
  }

  /** How often a label was counted. */
  function Count(ls: seq<string>, x: string): nat {
    multiset(ls)[x]
  }

  /** The keys of the count map in insertion order: each label once, where it was first counted. */
  function Distinct(ls: seq<string>): seq<string> {
    if ls == [] then []
    else
      var d := Distinct(ls[..|ls| - 1]);
      var x := ls[|ls| - 1];
      if x in d then d else d + [x]
  }

  /** The keys are exactly the counted labels, each once. */
  lemma {:induction false} DistinctKeys(ls: seq<string>)
    ensures forall x :: x in Distinct(ls) <==> x in ls
    ensures forall i, j :: 0 <= i < j < |Distinct(ls)| ==> Distinct(ls)[i] != Distinct(ls)[j]
  {
    if ls != [] {
      var p := ls[..|ls| - 1];
      DistinctKeys(p);
      assert ls == p + [ls[|ls| - 1]];
    }
  }

  /** The pass over the count map: a later label replaces the leader only with a strictly greater count. */
  function Scan(keys: seq<string>, ls: seq<string>): (string, nat) {
    if keys == [] then (Mixed, 0)
    else
      var leader := Scan(keys[..|keys| - 1], ls);
      var c := Count(ls, keys[|keys| - 1]);
      if c > leader.1 then (keys[|keys| - 1], c) else leader
  }

  /** `s.charAt(0).toUpperCase() + s.slice(1)` */
  function Capitalize(s: string): (r: string)
    ensures |r| == |s|
    ensures s != [] ==> !('a' <= r[0] <= 'z') && r[1..] == s[1..]
    ensures ToLower(r) == ToLower(s)
  {
    if s == [] then [] else [UpperChar(s[0])] + s[1..]
  }

  /** The collective mood of a journal listed newest first. */
  function CollectiveMood(entries: seq<JournalEntry>): string {
    if |entries| == 0 then Neutral
    else
      var ls := Counted(Recent(entries));
      var keys := Distinct(ls);
      if keys == [] then Neutral else Capitalize(Scan(keys, ls).0)
  }

  // ---------------------------------------------------------------------------
  // Properties
  // ---------------------------------------------------------------------------

  /** Position `k` holds a most frequent key, and every key before it is strictly less frequent. */
  predicate IsFirstMaximum(keys: seq<string>, ls: seq<string>, k: int) {
    && 0 <= k < |keys|
    && (forall j :: 0 <= j < |keys| ==> Count(ls, keys[j]) <= Count(ls, keys[k]))
    && (forall j :: 0 <= j < k ==> Count(ls, keys[j]) < Count(ls, keys[k]))
  }

  /** `i` is where `x` first occurs in `ls`. */
  predicate IsFirstOccurrence(ls: seq<string>, x: string, i: int) {
    0 <= i < |ls| && ls[i] == x && forall j :: 0 <= j < i ==> ls[j] != x
  }

  /** The scan returns the first key of greatest count, with that count. */
  lemma {:induction false} ScanFindsFirstMaximum(keys: seq<string>, ls: seq<string>)
    requires keys != []
    requires forall j :: 0 <= j < |keys| ==> Count(ls, keys[j]) > 0
    ensures exists k :: IsFirstMaximum(keys, ls, k) && Scan(keys, ls) == (keys[k], Count(ls, keys[k]))
  {
    var n := |keys| - 1;
    var prefix := keys[..n];
    var c := Count(ls, keys[n]);
    assert Scan(keys, ls) == if c > Scan(prefix, ls).1 then (keys[n], c) else Scan(prefix, ls);
    if n == 0 {
      assert Scan(prefix, ls) == (Mixed, 0);
      assert IsFirstMaximum(keys, ls, 0);
    } else {
      ScanFindsFirstMaximum(prefix, ls);
      var k :| IsFirstMaximum(prefix, ls, k) && Scan(prefix, ls) == (prefix[k], Count(ls, prefix[k]));
      var m := Count(ls, prefix[k]);
      assert forall j :: 0 <= j < n ==> keys[j] == prefix[j];
      if c > m {
        assert IsFirstMaximum(keys, ls, n);
      } else {
        assert IsFirstMaximum(keys, ls, k);
      }
    }
  }

  /** The insertion order of the count map follows first occurrence in the counted labels. */
  lemma {:induction false} DistinctFollowsFirstOccurrence(ls: seq<string>, i: int, j: int, a: int, b: int)
    requires 0 <= i < j < |Distinct(ls)|
    requires IsFirstOccurrence(ls, Distinct(ls)[i], a)
    requires IsFirstOccurrence(ls, Distinct(ls)[j], b)
    ensures a < b
  {
    var n := |ls| - 1;
    var p := ls[..n];
    var d := Distinct(ls);
    var dp := Distinct(p);
    DistinctKeys(p);
    assert ls == p + [ls[n]];
    if j < |dp| {
      // Both keys already occur in the prefix, so their first occurrences lie there.
      assert d[i] == dp[i] && d[j] == dp[j];
      assert dp[i] in p && dp[j] in p;
      assert a < n by {
        var w :| 0 <= w < |p| && p[w] == dp[i];
      }
      assert b < n by {
        var w :| 0 <= w < |p| && p[w] == dp[j];
      }
      assert IsFirstOccurrence(p, dp[i], a);
      assert IsFirstOccurrence(p, dp[j], b);
      DistinctFollowsFirstOccurrence(p, i, j, a, b);
    } else {
      // The later key is the label that was new at the end of the list.
      assert d == dp + [ls[n]] && d[j] == ls[n] && ls[n] !in p;
      assert b == n;
      assert d[i] != ls[n];
    }
  }

  /** `w` is as frequent as every label in `ls`, and strictly more frequent than each label first seen before it. */
  ghost predicate Dominates(ls: seq<string>, w: string) {
    && (forall y :: y in ls ==> Count(ls, y) <= Count(ls, w))
    && (forall y, iy, iw :: IsFirstOccurrence(ls, y, iy) && IsFirstOccurrence(ls, w, iw) && iy < iw
          ==> Count(ls, y) < Count(ls, w))
  }

  /** The leader of the count map built from a non-empty list of labels is its first most frequent label. */
  lemma {:induction false} LeaderDominates(ls: seq<string>)
    requires ls != []
    ensures Scan(Distinct(ls), ls).0 in ls
    ensures Dominates(ls, Scan(Distinct(ls), ls).0)
  {
    var keys := Distinct(ls);
    DistinctKeys(ls);
    assert ls[0] in keys;
    forall j | 0 <= j < |keys|
      ensures Count(ls, keys[j]) > 0
    {
      assert keys[j] in ls;
    }
    ScanFindsFirstMaximum(keys, ls);
    var k :| IsFirstMaximum(keys, ls, k) && Scan(keys, ls) == (keys[k], Count(ls, keys[k]));
    var w := keys[k];
    forall y | y in ls
      ensures Count(ls, y) <= Count(ls, w)
    {
      assert y in keys;
    }
    forall y, iy, iw | IsFirstOccurrence(ls, y, iy) && IsFirstOccurrence(ls, w, iw) && iy < iw
      ensures Count(ls, y) < Count(ls, w)
    {
      assert y in keys;
      var jy :| 0 <= jy < |keys| && keys[jy] == y;
      if jy > k {
        DistinctFollowsFirstOccurrence(ls, k, jy, iw, iy);
      }
    }
  }

  /** An empty journal has the neutral mood. */
  lemma NoEntries()
    ensures CollectiveMood([]) == Neutral
  {
  }

  /** Only the seven most recent entries count: older entries never change the mood. */
  lemma {:induction false} OnlyRecentEntriesCount(entries: seq<JournalEntry>, older: seq<JournalEntry>)
    ensures CollectiveMood(entries) == CollectiveMood(Recent(entries))
    ensures |entries| >= WindowSize ==> CollectiveMood(entries + older) == CollectiveMood(entries)
  {
    assert Recent(Recent(entries)) == Recent(entries);
    if |entries| >= WindowSize {
      assert Recent(entries + older) == Recent(entries);
    }
  }

  /** With nothing left to count the mood is "Neutral", never the "Mixed" placeholder. */
  lemma NothingCounted(entries: seq<JournalEntry>)
    requires Counted(Recent(entries)) == []
    ensures CollectiveMood(entries) == Neutral
  {
  }

  /**
   * Otherwise the mood is a counted label, capitalised: never a failure report,
   * at least as frequent as every counted label, and strictly more frequent than
   * every label that was first counted before it.
   */
  lemma {:induction false} MostFrequentLabelWins(entries: seq<JournalEntry>)
    requires Counted(Recent(entries)) != []
    ensures exists w :: && w in Counted(Recent(entries)) && !Skipped(w)
                        && Dominates(Counted(Recent(entries)), w)
                        && CollectiveMood(entries) == Capitalize(w)
  {
    var ls := Counted(Recent(entries));
    LeaderDominates(ls);
    DistinctKeys(ls);
    var w := Scan(Distinct(ls), ls).0;
    assert Distinct(ls) != [] by {
      assert ls[0] in Distinct(ls);
    }
    assert CollectiveMood(entries) == Capitalize(w);
  }

  // ---------------------------------------------------------------------------
  // Steps of the implementation's loops
  // ---------------------------------------------------------------------------

  lemma KeptStep(labels: seq<string>, j: nat)
    requires j < |labels|
    ensures Kept(labels[..j + 1]) == Kept(labels[..j]) + Kept([labels[j]])
  {
    assert labels[..j + 1][..j] == labels[..j];
    assert [labels[j]][..0] == [];
  }

  lemma CountedStep(entries: seq<JournalEntry>, i: nat)
    requires i < |entries|
    ensures Counted(entries[..i + 1]) == Counted(entries[..i]) + Kept(entries[i].emotions)
  {
    assert entries[..i + 1][..i] == entries[..i];
  }

  lemma DistinctStep(ls: seq<string>, e: string)
    ensures Distinct(ls + [e]) == if e in ls then Distinct(ls) else Distinct(ls) + [e]
  {
    DistinctKeys(ls);
    assert (ls + [e])[..|ls|] == ls;
  }

  lemma CountStep(ls: seq<string>, e: string)
    ensures forall x :: Count(ls + [e], x) == Count(ls, x) + (if x == e then 1 else 0)
  {
    assert multiset(ls + [e]) == multiset(ls) + multiset{e};
  }

  lemma ScanStep(keys: seq<string>, k: nat, ls: seq<string>)
    requires k < |keys|
    ensures Scan(keys[..k + 1], ls) ==
      var leader := Scan(keys[..k], ls);
      if Count(ls, keys[k]) > leader.1 then (keys[k], Count(ls, keys[k])) else leader
  {
    assert keys[..k + 1][..k] == keys[..k];
  }

  // ---------------------------------------------------------------------------
  // The implementation
  // ---------------------------------------------------------------------------

  /** The count map's state: its keys in insertion order and the count of each. */
  ghost predicate CountsOf(ls: seq<string>, keys: seq<string>, emotionCounts: map<string, nat>) {
    && keys == Distinct(ls)
    && (forall e :: e in emotionCounts <==> e in ls)
    && (forall e :: e in emotionCounts ==> emotionCounts[e] == Count(ls, e))
  }

  /** Counting one more label keeps the count map in step with the counted labels. */
  lemma CountOneMore(ls: seq<string>, keys: seq<string>, emotionCounts: map<string, nat>, e: string)
    requires CountsOf(ls, keys, emotionCounts)
    ensures e in emotionCounts ==> CountsOf(ls + [e], keys, emotionCounts[e := emotionCounts[e] + 1])
    ensures e !in emotionCounts ==> CountsOf(ls + [e], keys + [e], emotionCounts[e := 1])
  {
    DistinctStep(ls, e);
    CountStep(ls, e);
  }

  /** The callback of the inner `forEach`: cleans one label and counts it unless it reports a failure. */
  method CountEmotion(emotion: string, keys: seq<string>, emotionCounts: map<string, nat>, ghost seen: seq<string>)
    returns (keys': seq<string>, emotionCounts': map<string, nat>)
    requires CountsOf(seen, keys, emotionCounts)
    ensures CountsOf(seen + Kept([emotion]), keys', emotionCounts')
  {
    keys', emotionCounts' := keys, emotionCounts;
    var e := Clean(emotion);
    assert [emotion][..0] == [];
    if Skipped(e) {
      assert seen + Kept([emotion]) == seen;
      return;
    }
    CountOneMore(seen, keys', emotionCounts', e);
    if e in emotionCounts' {
      emotionCounts' := emotionCounts'[e := emotionCounts'[e] + 1];
    } else {
      keys' := keys' + [e];
      emotionCounts' := emotionCounts'[e := 1];
    }
  }

  /** The inner `forEach`: counts the labels of one entry into the map. */
  method CountLabels(emotions: seq<string>, keys: seq<string>, emotionCounts: map<string, nat>, ghost counted: seq<string>)
    returns (keys': seq<string>, emotionCounts': map<string, nat>)
    requires CountsOf(counted, keys, emotionCounts)
    ensures CountsOf(counted + Kept(emotions), keys', emotionCounts')
  {
    keys', emotionCounts' := keys, emotionCounts;
    ghost var seen := counted;
    assert counted + Kept(emotions[..0]) == counted;
    for j := 0 to |emotions|
      invariant seen == counted + Kept(emotions[..j])
      invariant CountsOf(seen, keys', emotionCounts')
    {
      keys', emotionCounts' := CountEmotion(emotions[j], keys', emotionCounts', seen);
      KeptStep(emotions, j);
      assert counted + Kept(emotions[..j + 1]) == seen + Kept([emotions[j]]);
      seen := seen + Kept([emotions[j]]);
    }
    assert emotions[..|emotions|] == emotions;
  }

  /** `getCollectiveMood`: two passes, one filling the count map, one picking its leader. */
  method GetCollectiveMood(entries: seq<JournalEntry>) returns (mood: string)
    ensures mood == CollectiveMood(entries)
  {
    if |entries| == 0 {
      return Neutral;
    }
    var recentEntries := Recent(entries);
    var keys: seq<string> := [];
    var emotionCounts: map<string, nat> := map[];
    for i := 0 to |recentEntries|
      invariant CountsOf(Counted(recentEntries[..i]), keys, emotionCounts)
    {
      CountedStep(recentEntries, i);
      keys, emotionCounts := CountLabels(recentEntries[i].emotions, keys, emotionCounts, Counted(recentEntries[..i]));
    }
    assert recentEntries[..|recentEntries|] == recentEntries;
    ghost var counted := Counted(recentEntries);
    DistinctKeys(counted);

    var maxCount: nat := 0;
    var dominantMood := Mixed;
    var hasData := false;
    for k := 0 to |keys|
      invariant hasData == (k > 0)
      invariant (dominantMood, maxCount) == Scan(keys[..k], counted)
    {
      ScanStep(keys, k, counted);
      hasData := true;
      var count := emotionCounts[keys[k]];
      if count > maxCount {
        maxCount := count;
        dominantMood := keys[k];
      }
    }
    assert keys[..|keys|] == keys;
    if !hasData {
      return Neutral;
    }
    mood := Capitalize(dominantMood);
  }
}
