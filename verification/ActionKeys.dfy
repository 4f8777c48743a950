/** Readable action keys: generated once from labels, unique per source node, stable ever after. */
module ActionKeys {
  import opened Outcomes
  import opened GraphInput
  import Text

  const MAX_KEY := 80

  predicate IsActionKey(s: string) {
    Text.StartsAlnum(s, false) && Text.AllTail(s, "_.-", false)
  }

  // ------------------------------------------------------ keys from labels

  predicate Alnum(c: char) {
    Text.IsLower(c) || Text.IsDigit(c)
  }

  /** Every run of other characters becomes one underscore. */
  function Collapse(s: string, inRun: bool): (r: string)
    ensures forall c | c in r :: Alnum(c) || c == '_'
    ensures forall i | 0 <= i < |r| - 1 :: Alnum(r[i]) || Alnum(r[i + 1])
    ensures inRun && r != "" ==> Alnum(r[0])
  {
    if s == "" then ""
    else if Alnum(s[0]) then [s[0]] + Collapse(s[1..], false)
    else if inRun then Collapse(s[1..], true)
    else "_" + Collapse(s[1..], true)
  }

  function StripUnderscores(s: string): (r: string)
    requires forall i | 0 <= i < |s| - 1 :: Alnum(s[i]) || Alnum(s[i + 1])
    requires forall c | c in s :: Alnum(c) || c == '_'
    ensures r != "" ==> Alnum(r[0])
    ensures forall c | c in r :: Alnum(c) || c == '_'
    ensures |s| <= |r| + 2
  {
    var left := if s != "" && s[0] == '_' then s[1..] else s;
    if left != "" && left[|left| - 1] == '_' then left[..|left| - 1] else left
  }

  /** The key a label stands for, once `fold` has removed its diacritics and capitals. */
  function KeyFromLabel(folded: string): (r: string)
    ensures IsActionKey(r) && |r| <= MAX_KEY && forall c | c in r :: Alnum(c) || c == '_'
  {
    var stripped := StripUnderscores(Collapse(folded, false));
    var cut := if |stripped| > MAX_KEY then stripped[..MAX_KEY] else stripped;
    assert forall c | c in cut :: c in stripped;
    if cut == "" then "action" else cut
  }

  /** The key wanted for a transition before uniqueness is considered. */
  function Base(t: TransitionInput, fold: string -> string): (r: string)
    ensures IsActionKey(r)
  {
    var requested := if t.actionKey.Some? then Text.Lower(Text.Trim(t.actionKey.value)) else "";
    if IsActionKey(requested) then requested else KeyFromLabel(fold(t.caption))
  }

  // ------------------------------------------------------------- uniqueness

  function Suffix(k: nat): string {
    "_" + Text.Decimal(k)
  }

  function Candidate(base: string, k: nat): string {
    var suffix := Suffix(k);
    var keep := if MAX_KEY > |suffix| + 1 then MAX_KEY - |suffix| else 1;
    (if |base| > keep then base[..keep] else base) + suffix
  }

  /** Distinct suffix numbers give distinct candidates, however much of the base is cut off. */
  lemma CandidateInjective(base: string, j: nat, k: nat)
    requires Candidate(base, j) == Candidate(base, k)
    ensures j == k
  {
    var a, b := Candidate(base, j), Candidate(base, k);
    var heads := (a[..|a| - |Suffix(j)|], b[..|b| - |Suffix(k)|]);
    assert a == heads.0 + ['_'] + Text.Decimal(j);
    assert b == heads.1 + ['_'] + Text.Decimal(k);
    Text.TailUnambiguous(heads.0, Text.Decimal(j), heads.1, Text.Decimal(k), '_');
    Text.DecimalInjective(j, k);
  }

  ghost function Tried(base: string, upTo: nat): set<string> {
    set j | 2 <= j < upTo :: Candidate(base, j)
  }

  lemma {:induction false} TriedCount(base: string, upTo: nat)
    ensures |Tried(base, upTo)| == if upTo < 2 then 0 else upTo - 2
  {
    if upTo > 2 {
      TriedCount(base, upTo - 1);
      var last := Candidate(base, upTo - 1);
      if last in Tried(base, upTo - 1) {
        var j :| 2 <= j < upTo - 1 && Candidate(base, j) == last;
        CandidateInjective(base, j, upTo - 1);
      }
      assert Tried(base, upTo) == Tried(base, upTo - 1) + {last};
    } else {
      assert Tried(base, upTo) == {};
    }
  }

  /** Pigeonhole: only so many candidates can be taken. */
  lemma SuffixBounded(base: string, used: set<string>, upTo: nat)
    requires Tried(base, upTo) <= used
    ensures upTo <= |used| + 2
  {
    TriedCount(base, upTo);
    assert used == Tried(base, upTo) + (used - Tried(base, upTo));
  }

  ghost predicate Chosen(used: set<string>, base: string, key: string) {
    if base !in used then key == base
    else exists k: nat :: k >= 2 && key == Candidate(base, k) && key !in used && Tried(base, k) <= used
  }

  lemma ChosenUnique(used: set<string>, base: string, key: string, key': string)
    requires Chosen(used, base, key) && Chosen(used, base, key')
    ensures key == key'
  {
  }

  // --------------------------------------------------------------- the pass

  ghost function UsedBefore(out: seq<TransitionInput>, i: nat, sourceKey: string): set<string>
    requires i <= |out|
  {
    set j | 0 <= j < i && out[j].sourceKey == sourceKey && out[j].actionKey.Some? :: out[j].actionKey.value
  }

  lemma UsedBeforeSame(a: seq<TransitionInput>, b: seq<TransitionInput>, i: nat, sourceKey: string)
    requires i <= |a| && i <= |b| && forall j | 0 <= j < i :: a[j] == b[j]
    ensures UsedBefore(a, i, sourceKey) == UsedBefore(b, i, sourceKey)
  {
  }

  lemma UsedBeforeNext(out: seq<TransitionInput>, t: TransitionInput, sourceKey: string)
    requires t.actionKey.Some?
    ensures UsedBefore(out + [t], |out| + 1, sourceKey)
            == UsedBefore(out, |out|, sourceKey) + (if sourceKey == t.sourceKey then {t.actionKey.value} else {})
  {
    UsedBeforeSame(out + [t], out, |out|, sourceKey);
    assert (out + [t])[|out|] == t;
  }

  lemma NothingUsed()
    ensures forall s :: UsedBefore([], 0, s) == {}
  {
  }

  /** Transition by transition: the wanted key if it is free at its source, otherwise the first free candidate. */
  ghost predicate Prepared(ts: seq<TransitionInput>, fold: string -> string, out: seq<TransitionInput>) {
    && |out| == |ts|
    && forall i | 0 <= i < |ts| ::
         && out[i].actionKey.Some?
         && out[i] == ts[i].(actionKey := out[i].actionKey)
         && Chosen(UsedBefore(out, i, ts[i].sourceKey), Base(ts[i], fold), out[i].actionKey.value)
  }

  lemma PreparedNext(ts: seq<TransitionInput>, fold: string -> string, out: seq<TransitionInput>,
                     t: TransitionInput, key: string)
    requires Prepared(ts, fold, out) && Chosen(UsedBefore(out, |out|, t.sourceKey), Base(t, fold), key)
    ensures Prepared(ts + [t], fold, out + [t.(actionKey := Some(key))])
  {
    var after := out + [t.(actionKey := Some(key))];
    forall i | 0 <= i < |after|
      ensures after[i].actionKey.Some? && after[i] == (ts + [t])[i].(actionKey := after[i].actionKey)
      ensures Chosen(UsedBefore(after, i, (ts + [t])[i].sourceKey), Base((ts + [t])[i], fold), after[i].actionKey.value)
    {
      UsedBeforeSame(after, out, i, (ts + [t])[i].sourceKey);
    }
  }

  method PrepareTransitions(ts: seq<TransitionInput>, fold: string -> string) returns (out: seq<TransitionInput>)
    ensures Prepared(ts, fold, out)
  {
    var usedBySource: map<string, set<string>> := map[];
    out := [];
    NothingUsed();
    hide Chosen, UsedBefore, Base;
    for i := 0 to |ts|
      invariant |out| == i && Prepared(ts[..i], fold, out)
      invariant forall s :: (if s in usedBySource then usedBySource[s] else {}) == UsedBefore(out, i, s)
    {
      var t := ts[i];
      var used := if t.sourceKey in usedBySource then usedBySource[t.sourceKey] else {};
      var key := FreeKey(used, Base(t, fold));
      usedBySource := usedBySource[t.sourceKey := used + {key}];
      PreparedNext(ts[..i], fold, out, t, key);
      assert ts[..i] + [t] == ts[..i + 1];
      forall s {
        UsedBeforeNext(out, t.(actionKey := Some(key)), s);
      }
      out := out + [t.(actionKey := Some(key))];
    }
    assert ts[..|ts|] == ts;
  }

  method FreeKey(used: set<string>, base: string) returns (key: string)
    ensures Chosen(used, base, key) && key !in used
  {
    key := base;
    var suffix := 2;
    while key in used
      invariant suffix >= 2
      invariant suffix == 2 ==> key == base
      invariant suffix > 2 ==> base in used && key == Candidate(base, suffix - 1) && Tried(base, suffix - 1) <= used
      decreases |used| + 4 - suffix
    {
      if suffix > 2 {
        assert Tried(base, suffix) <= used;
        SuffixBounded(base, used, suffix);
      }
      key := Candidate(base, suffix);
      suffix := suffix + 1;
    }
  }

  // ------------------------------------------------------------ what it gives

  lemma {:induction false} PreparedUnique(ts: seq<TransitionInput>, fold: string -> string,
                                          a: seq<TransitionInput>, b: seq<TransitionInput>, n: nat)
    requires Prepared(ts, fold, a) && Prepared(ts, fold, b) && n <= |ts|
    ensures forall j | 0 <= j < n :: a[j] == b[j]
  {
    hide Chosen, UsedBefore, Base;
    if n > 0 {
      var i, s := n - 1, ts[n - 1].sourceKey;
      PreparedUnique(ts, fold, a, b, i);
      UsedBeforeSame(a, b, i, s);
      ChosenUnique(UsedBefore(a, i, s), Base(ts[i], fold), a[i].actionKey.value, b[i].actionKey.value);
    }
  }

  ghost predicate DistinctKeys(ts: seq<TransitionInput>) {
    forall i, j | 0 <= i < j < |ts| :: ts[i].sourceKey == ts[j].sourceKey ==> ts[i].actionKey != ts[j].actionKey
  }

  ghost predicate KeyedAll(ts: seq<TransitionInput>) {
    forall i | 0 <= i < |ts| :: ts[i].actionKey.Some? && IsActionKey(ts[i].actionKey.value)
  }

  lemma ChosenIsFreeKey(used: set<string>, base: string, key: string)
    requires IsActionKey(base) && Chosen(used, base, key)
    ensures key !in used && IsActionKey(key)
  {
  }

  /** Keys are well formed and pairwise distinct at each source. */
  lemma PreparedKeys(ts: seq<TransitionInput>, fold: string -> string, out: seq<TransitionInput>)
    requires Prepared(ts, fold, out)
    ensures KeyedAll(out) && DistinctKeys(out)
  {
    forall i | 0 <= i < |out|
      ensures IsActionKey(out[i].actionKey.value)
      ensures out[i].actionKey.value !in UsedBefore(out, i, out[i].sourceKey)
    {
      ChosenIsFreeKey(UsedBefore(out, i, ts[i].sourceKey), Base(ts[i], fold), out[i].actionKey.value);
    }
    forall i, j | 0 <= i < j < |out| && out[i].sourceKey == out[j].sourceKey
      ensures out[i].actionKey != out[j].actionKey
    {
      assert out[i].actionKey.value in UsedBefore(out, j, out[j].sourceKey);
    }
  }

  const MAX_TRANSITIONS := 500

  /** Within the limits of the request (500 transitions, requested keys of 80 characters) no key outgrows its column. */
  lemma PreparedLengths(ts: seq<TransitionInput>, fold: string -> string, out: seq<TransitionInput>, i: nat)
    requires Prepared(ts, fold, out) && i < |ts| <= MAX_TRANSITIONS
    requires ts[i].actionKey.Some? ==> |ts[i].actionKey.value| <= MAX_KEY
    ensures |out[i].actionKey.value| <= MAX_KEY
  {
    var used := UsedBefore(out, i, ts[i].sourceKey);
    var base := Base(ts[i], fold);
    if base in used {
      var k: nat :| k >= 2 && out[i].actionKey.value == Candidate(base, k) && Tried(base, k) <= used;
      UsedCount(out, i, ts[i].sourceKey);
      SuffixBounded(base, used, k);
      Text.DecimalShort(k);
    }
  }

  lemma {:induction false} UsedCount(out: seq<TransitionInput>, i: nat, sourceKey: string)
    requires i <= |out|
    ensures |UsedBefore(out, i, sourceKey)| <= i
  {
    if i > 0 {
      UsedCount(out, i - 1, sourceKey);
      var t := out[i - 1];
      var rest := UsedBefore(out, i - 1, sourceKey);
      assert UsedBefore(out, i, sourceKey)
             == rest + (if t.sourceKey == sourceKey && t.actionKey.Some? then {t.actionKey.value} else {});
    } else {
      assert UsedBefore(out, i, sourceKey) == {};
    }
  }

  lemma KeyIsItsOwnBase(t: TransitionInput, fold: string -> string)
    requires t.actionKey.Some? && IsActionKey(t.actionKey.value)
    ensures Base(t, fold) == t.actionKey.value
  {
    var key := t.actionKey.value;
    assert !Text.IsSpace(key[0]);
    assert key[|key| - 1] in key && !Text.IsSpace(key[|key| - 1]);
    assert Text.Trim(key) == key;
    assert forall i | 0 <= i < |key| :: key[i] in key && Text.LowerChar(key[i]) == key[i];
    assert Text.Lower(key) == key;
  }

  /** A pass over transitions whose keys are already distinct and well formed changes nothing. */
  lemma PreparedIdentity(ts: seq<TransitionInput>, fold: string -> string, out: seq<TransitionInput>)
    requires KeyedAll(ts) && DistinctKeys(ts) && Prepared(ts, fold, out)
    ensures out == ts
  {
    forall i | 0 <= i < |ts|
      ensures Chosen(UsedBefore(ts, i, ts[i].sourceKey), Base(ts[i], fold), ts[i].actionKey.value)
    {
      KeyIsItsOwnBase(ts[i], fold);
      assert forall j | 0 <= j < i && ts[j].sourceKey == ts[i].sourceKey :: ts[j].actionKey != ts[i].actionKey;
    }
    assert Prepared(ts, fold, ts);
    PreparedUnique(ts, fold, out, ts, |ts|);
  }

  /** Keys are stable: prepared transitions, read back in any order and under any label folding, keep their keys. */
  lemma PreparedStable(ts: seq<TransitionInput>, fold: string -> string, out: seq<TransitionInput>,
                       again: seq<TransitionInput>, p: seq<nat>, q: seq<nat>, fold': string -> string, out': seq<TransitionInput>)
    requires Prepared(ts, fold, out) && Rearranges(again, out, p, q) && Prepared(again, fold', out')
    ensures out' == again
  {
    PreparedKeys(ts, fold, out);
    RearrangedDistinct(again, out, p, q);
    PreparedIdentity(again, fold', out');
  }

  lemma RearrangedDistinct(again: seq<TransitionInput>, out: seq<TransitionInput>, p: seq<nat>, q: seq<nat>)
    requires Permutes(p, q, |again|) && |again| == |out| && DistinctKeys(out)
    requires forall i | 0 <= i < |again| ::
               again[i].sourceKey == out[p[i]].sourceKey && again[i].actionKey == out[p[i]].actionKey
    ensures DistinctKeys(again)
  {
  }
}
