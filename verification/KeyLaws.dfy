/** Which action key a transition gets, from its label, its request and the keys before it. */
module KeyLaws {
  import opened Outcomes
  import opened GraphInput
  import opened ActionKeys
  import Text
  import TextLaws

  // ---------------------------------------------------------------------- labels

  /** Letters and digits that a key may have. */
  predicate KeyLetter(c: char) {
    'a' <= c <= 'z' || '0' <= c <= '9'
  }

  predicate Word(s: string) {
    s != "" && forall i | 0 <= i < |s| :: KeyLetter(s[i])
  }

  predicate Gap(s: string) {
    forall i | 0 <= i < |s| :: !KeyLetter(s[i])
  }

  /** The first word of a text, what precedes it, and what follows. */
  predicate Begins(text: string, gap: string, word: string, rest: string) {
    text == gap + word + rest && Gap(gap) && Word(word) && (rest != "" ==> !KeyLetter(rest[0]))
  }

  /** A label consists of these words, with something else before, between and after them. */
  ghost predicate Spells(text: string, words: seq<string>)
    decreases |words|
  {
    if words == [] then Gap(text) else exists gap, rest :: Begins(text, gap, words[0], rest) && Spells(rest, words[1..])
  }

  lemma WordFirst(text: string, gap: string, word: string, rest: string, words: seq<string>)
    requires Begins(text, gap, word, rest) && Spells(rest, words)
    ensures Spells(text, [word] + words)
  {
    var all := [word] + words;
    assert all[0] == word && all[1..] == words;
    hide Begins;
    assert Begins(text, gap, all[0], rest) && Spells(rest, all[1..]);
  }

  /** Every label has its words; `seen` is the beginning of the first. */
  lemma {:induction false} HasWords(seen: string, text: string) returns (words: seq<string>)
    requires seen == "" || Word(seen)
    ensures Spells(seen + text, words)
    decreases |text|
  {
    if text == "" {
      assert Spells("", []);
      if seen == "" {
        words := [];
      } else {
        assert seen + text == "" + seen + "";
        WordFirst(seen + text, "", seen, "", []);
        words := [seen];
      }
    } else if KeyLetter(text[0]) {
      assert seen + text == (seen + [text[0]]) + text[1..];
      words := HasWords(seen + [text[0]], text[1..]);
    } else {
      words := HasWords("", text[1..]);
      assert "" + text[1..] == text[1..] && [text[0]] + text[1..] == text;
      GapBefore(text[0], text[1..], words);
      if seen == "" {
        assert seen + text == text;
      } else {
        assert seen + text == "" + seen + text;
        WordFirst(seen + text, "", seen, text, words);
        words := [seen] + words;
      }
    }
  }

  lemma GapBefore(c: char, text: string, words: seq<string>)
    requires !KeyLetter(c) && Spells(text, words)
    ensures Spells([c] + text, words)
  {
    if words != [] {
      var gap, rest :| Begins(text, gap, words[0], rest) && Spells(rest, words[1..]);
      assert [c] + text == ([c] + gap) + words[0] + rest;
      assert Begins([c] + text, [c] + gap, words[0], rest);
    }
  }

  lemma {:induction false} CollapseGap(gap: string, rest: string, inRun: bool)
    requires Gap(gap)
    ensures Collapse(gap + rest, inRun) == (if gap == "" || inRun then "" else "_") + Collapse(rest, inRun || gap != "")
    decreases |gap|
  {
    if gap == "" {
      assert gap + rest == rest;
    } else {
      assert (gap + rest)[1..] == gap[1..] + rest;
      CollapseGap(gap[1..], rest, true);
    }
  }

  lemma {:induction false} CollapseWord(word: string, rest: string, inRun: bool)
    requires Word(word)
    ensures Collapse(word + rest, inRun) == word + Collapse(rest, false)
    decreases |word|
  {
    assert (word + rest)[1..] == word[1..] + rest;
    if |word| > 1 {
      CollapseWord(word[1..], rest, false);
      assert word == [word[0]] + word[1..];
    } else {
      assert word[1..] + rest == rest;
    }
  }

  predicate Edge(s: string) {
    s == "" || s == "_"
  }

  /** Collapsing joins the words, with at most one underscore on either side. */
  lemma {:induction false} CollapseSpells(text: string, words: seq<string>) returns (front: string, back: string)
    requires Spells(text, words) && words != []
    ensures Collapse(text, false) == front + TextLaws.Join(words, '_') + back && Edge(front) && Edge(back)
    ensures text != "" && !KeyLetter(text[0]) ==> front == "_"
    decreases |words|
  {
    var gap, rest :| Begins(text, gap, words[0], rest) && Spells(rest, words[1..]);
    FirstCollapsed(text, gap, words[0], rest);
    RestApart(text, gap, words[0], rest);
    hide Collapse, Begins;
    front := if gap == "" then "" else "_";
    if |words| == 1 {
      back := LastCollapsed(rest);
    } else {
      RestNotEmpty(rest, words[1..]);
      var between;
      between, back := CollapseSpells(rest, words[1..]);
      hide Spells, Edge;
      var later := TextLaws.Join(words[1..], '_');
      assert between == "_";
      assert TextLaws.Join(words, '_') == words[0] + ['_'] + later;
      Regrouped(front, words[0], later, back);
    }
  }

  lemma FirstCollapsed(text: string, gap: string, word: string, rest: string)
    requires Begins(text, gap, word, rest)
    ensures Collapse(text, false) == (if gap == "" then "" else "_") + (word + Collapse(rest, false))
    ensures text != "" && !KeyLetter(text[0]) ==> gap != ""
  {
    CollapseGap(gap, word + rest, false);
    CollapseWord(word, rest, gap != "");
    assert KeyLetter(word[0]);
    hide Collapse, Gap, Word, KeyLetter;
    assert text == gap + (word + rest);
    assert gap == "" ==> text[0] == word[0];
  }

  lemma Regrouped(front: string, word: string, later: string, back: string)
    ensures front + (word + ("_" + later + back)) == front + (word + ['_'] + later) + back
  {
  }

  lemma RestApart(text: string, gap: string, word: string, rest: string)
    requires Begins(text, gap, word, rest)
    ensures rest != "" ==> !KeyLetter(rest[0])
  {
  }

  lemma LastCollapsed(rest: string) returns (back: string)
    requires Gap(rest)
    ensures Collapse(rest, false) == back && Edge(back)
  {
    assert rest + "" == rest;
    CollapseGap(rest, "", false);
    back := Collapse(rest, false);
  }

  lemma RestNotEmpty(rest: string, words: seq<string>)
    requires Spells(rest, words) && words != []
    ensures rest != ""
  {
  }

  lemma {:induction false} JoinedEnds(text: string, words: seq<string>)
    requires Spells(text, words) && words != []
    ensures var joined := TextLaws.Join(words, '_'); joined != "" && KeyLetter(joined[0]) && KeyLetter(joined[|joined| - 1])
    decreases |words|
  {
    var gap, rest :| Begins(text, gap, words[0], rest) && Spells(rest, words[1..]);
    if |words| > 1 {
      JoinedEnds(rest, words[1..]);
    }
  }

  lemma Stripped(s: string, front: string, joined: string, back: string)
    requires s == front + joined + back && Edge(front) && Edge(back)
    requires joined != "" && KeyLetter(joined[0]) && KeyLetter(joined[|joined| - 1])
    requires forall i | 0 <= i < |s| - 1 :: Alnum(s[i]) || Alnum(s[i + 1])
    requires forall c | c in s :: Alnum(c) || c == '_'
    ensures StripUnderscores(s) == joined
  {
    assert s[|front|] == joined[0] && s[|front| + |joined| - 1] == joined[|joined| - 1];
    assert s[|front|..] == joined + back && (joined + back)[..|joined|] == joined;
  }

  /** The key of a label: its words with underscores between them, no more than eighty characters; `action` without any words. */
  lemma LabelLaw(text: string, words: seq<string>)
    requires Spells(text, words)
    ensures var joined := TextLaws.Join(words, '_');
            KeyFromLabel(text) == if words == [] then "action" else if |joined| > 80 then joined[..80] else joined
  {
    if words == [] {
      var back := LastCollapsed(text);
    } else {
      var front, back := CollapseSpells(text, words);
      JoinedEnds(text, words);
      Stripped(Collapse(text, false), front, TextLaws.Join(words, '_'), back);
      hide Collapse, StripUnderscores;
    }
  }

  // ----------------------------------------------------------------- uniqueness

  /** The k-th candidate is the base with an underscore and the number, of whose characters the base gives up as many as the
      eighty ask for. */
  lemma CandidateLaw(base: string, k: nat)
    requires |Text.Decimal(k)| <= 78
    ensures |base| + 1 + |Text.Decimal(k)| <= 80 ==> Candidate(base, k) == base + "_" + Text.Decimal(k)
    ensures |base| + 1 + |Text.Decimal(k)| > 80 ==>
              && |Candidate(base, k)| == 80
              && Candidate(base, k) == base[..79 - |Text.Decimal(k)|] + "_" + Text.Decimal(k)
  {
    var number := Text.Decimal(k);
    hide Text.Decimal;
    assert Suffix(k) == "_" + number;
    assert base + ("_" + number) == base + "_" + number;
  }

  /** A requested key that is well formed once trimmed and in small letters; else the label's. */
  function WantedKey(t: TransitionInput, fold: string -> string): string {
    if t.actionKey.Some? && Requested(t.actionKey.value) then Text.Lower(Text.Trim(t.actionKey.value)) else KeyFromLabel(fold(t.caption))
  }

  predicate Requested(key: string) {
    var s := Text.Lower(Text.Trim(key));
    && s != "" && KeyLetter(s[0])
    && forall i | 0 <= i < |s| :: KeyLetter(s[i]) || s[i] == '_' || s[i] == '.' || s[i] == '-'
  }

  lemma WantedIs(t: TransitionInput, fold: string -> string)
    ensures Base(t, fold) == WantedKey(t, fold)
  {
    hide KeyFromLabel, Text.Lower, Text.Trim;
    forall c: char
      ensures c in "_.-" <==> c == '_' || c == '.' || c == '-'
    {
      assert "_.-"[0] == '_' && "_.-"[1] == '.' && "_.-"[2] == '-';
    }
    if t.actionKey.Some? {
      var s := Text.Lower(Text.Trim(t.actionKey.value));
      assert forall i | 0 <= i < |s| :: s[i] in s;
    }
  }

  /** An earlier transition of the same step has this key. */
  ghost predicate TakenBefore(out: seq<TransitionInput>, i: nat, key: string)
    requires i < |out|
  {
    exists j | 0 <= j < i :: out[j].sourceKey == out[i].sourceKey && out[j].actionKey == Some(key)
  }

  /** Each transition gets the key it wants, unless an earlier one of the same step has it; then it gets the first free of the
      candidates numbered from two. Nothing else about it changes. */
  lemma PassLaw(ts: seq<TransitionInput>, fold: string -> string, out: seq<TransitionInput>, i: nat)
    requires Prepared(ts, fold, out) && i < |ts|
    ensures |out| == |ts| && out[i].actionKey.Some? && out[i] == ts[i].(actionKey := out[i].actionKey)
    ensures var wanted := WantedKey(ts[i], fold);
            if !TakenBefore(out, i, wanted) then out[i].actionKey == Some(wanted)
            else exists k: nat ::
              && k >= 2 && out[i].actionKey == Some(Candidate(wanted, k)) && !TakenBefore(out, i, Candidate(wanted, k))
              && forall j | 2 <= j < k :: TakenBefore(out, i, Candidate(wanted, j))
  {
    WantedIs(ts[i], fold);
    hide WantedKey, Base, Candidate;
    var used := UsedBefore(out, i, ts[i].sourceKey);
    forall key
      ensures key in used <==> TakenBefore(out, i, key)
    {
      if j :| 0 <= j < i && out[j].sourceKey == out[i].sourceKey && out[j].actionKey == Some(key) {
        assert out[j].actionKey.value in used;
      }
    }
    hide UsedBefore, TakenBefore;
  }
}
