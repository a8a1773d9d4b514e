/** How a file-level lock_timeout directive is written, and the proof that the pattern matches exactly that. */
module DirectiveSpelling {
  import opened Text
  import opened SqlLexer
  import opened LockDirective

  // ---------------------------------------------------------------------
  // The grammar
  // ---------------------------------------------------------------------

  /** An optional SESSION or LOCAL, with the blanks in front of it. */
  datatype Scope = Unscoped | Scoped(gap: string, word: string)

  /** The words and blanks of a directive, in the order in which they stand. */
  datatype Directive =
    | SetLock(word: string, scope: Scope, gap: string, name: string, pad: string, to: string, lead: string,
              value: string, semi: bool)
    | ResetLock(word: string, gap: string, name: string, pad: string, semi: bool)

  function SpellScope(scope: Scope): string { if scope.Scoped? then scope.gap + scope.word else "" }

  function Semi(semi: bool): string { if semi then ";" else "" }

  function Spell(d: Directive): string {
    match d
    case SetLock(kw, scope, gap, name, pad, to, lead, value, semi) =>
      kw + (SpellScope(scope) + (gap + (name + (pad + (to + (lead + (value + Semi(semi))))))))
    case ResetLock(kw, gap, name, pad, semi) => kw + (gap + (name + (pad + Semi(semi))))
  }

  predicate IsScope(scope: Scope) {
    scope.Scoped? ==> scope.gap != "" && Blank(scope.gap) && (IsWord(scope.word, "session") || IsWord(scope.word, "local"))
  }

  /** A value is everything up to a newline or a semicolon, blanks in front of it aside. */
  predicate IsValue(value: string) {
    && (forall i :: 0 <= i < |value| ==> value[i] != '\n' && value[i] != ';')
    && (value != "" ==> !IsSpace(value[0]))
  }

  predicate WellSpelled(d: Directive) {
    && d.gap != "" && Blank(d.gap) && IsWord(d.name, "lock_timeout") && Blank(d.pad)
    && (d.ResetLock? ==> IsWord(d.word, "reset"))
    && (d.SetLock? ==>
          && IsWord(d.word, "set") && IsScope(d.scope) && Blank(d.lead) && IsValue(d.value)
          && (d.to == "=" || (IsWord(d.to, "to") && (d.lead == "" && d.value != "" ==> !IsIdentPart(d.value[0])))))
  }

  /** The directive ends where `rest` begins: it takes its semicolon along, and a value the rest of its line. */
  predicate Ends(d: Directive, rest: string) {
    || d.semi || rest == ""
    || (if d.SetLock? then d.value != "" && rest[0] == '\n' else rest[0] != ';' && !IsSpace(rest[0]))
  }

  // ---------------------------------------------------------------------
  // What is spelled is matched
  // ---------------------------------------------------------------------

  /** `t` is what stands from `p` on. */
  predicate At(s: string, p: nat, t: string) { p <= |s| && s[p..] == t }

  lemma AtNext(s: string, p: nat, a: string, t: string)
    requires At(s, p, a + t)
    ensures At(s, p + |a|, t)
  {
    assert s[p + |a|..] == s[p..][|a|..] == t;
  }

  lemma SkipsBlank(s: string, p: nat, b: string, t: string)
    requires At(s, p, b + t) && Blank(b) && (t != "" ==> !IsSpace(t[0]))
    ensures SkipSpace(s, p) == p + |b| && At(s, p + |b|, t)
  {
    hide SpaceRun, IsSpace;
    BlankRun(b, t);
    AtNext(s, p, b, t);
  }

  lemma FindsWord(s: string, p: nat, w: string, word: string, t: string)
    requires At(s, p, w + t) && IsWord(w, word)
    ensures WordAt(s, p, word) && At(s, p + |w|, t)
  {
    AtNext(s, p, w, t);
    forall k | 0 <= k < |word| ensures Lower(s[p + k]) == word[k] {
      assert s[p..][k] == s[p + k];
      assert (w + t)[k] == w[k];
    }
  }

  lemma WordIsNoSpace(w: string, word: string)
    requires IsWord(w, word) && word != "" && IsLetter(word[0])
    ensures !IsSpace(w[0]) && IsIdentPart(w[0])
  {
    assert Lower(w[0]) == word[0];
  }

  predicate IsLetter(c: char) { 'a' <= c <= 'z' }

  /** Blanks, then a word. */
  lemma SpacedWordFound(s: string, p: nat, gap: string, w: string, word: string, t: string)
    requires At(s, p, gap + (w + t)) && gap != "" && Blank(gap)
    requires IsWord(w, word) && word != "" && IsLetter(word[0]) && ';' !in word
    ensures AfterSpacedWord(s, p, word) == p + |gap| + |w| && At(s, p + |gap| + |w|, t)
  {
    hide Blank, IsSpace, SpaceRun, SkipSpace;
    WordIsNoSpace(w, word);
    assert (w + t)[0] == w[0];
    SkipsBlank(s, p, gap, w + t);
    FindsWord(s, p + |gap|, w, word, t);
  }

  /** Blanks, then a word that differs from this one at its `k`-th character. */
  lemma SpacedWordMissed(s: string, p: nat, gap: string, w: string, other: string, word: string, k: nat, t: string)
    requires At(s, p, gap + (w + t)) && gap != "" && Blank(gap) && IsWord(w, other) && other != "" && IsLetter(other[0])
    requires k < |other| && k < |word| && other[k] != word[k] && ';' !in word
    ensures AfterSpacedWord(s, p, word) == 0
  {
    hide Blank, IsSpace, SpaceRun, SkipSpace;
    WordIsNoSpace(w, other);
    assert (w + t)[0] == w[0];
    SkipsBlank(s, p, gap, w + t);
    FindsWord(s, p + |gap|, w, other, t);
    assert Lower(s[p + |gap| + k]) == other[k];
  }

  lemma ScopeFound(s: string, p: nat, scope: Scope, gap: string, name: string, t: string)
    requires At(s, p, SpellScope(scope) + (gap + (name + t))) && IsScope(scope)
    requires gap != "" && Blank(gap) && IsWord(name, "lock_timeout")
    ensures AfterScope(s, p) == p + |SpellScope(scope)| && At(s, p + |SpellScope(scope)|, gap + (name + t))
  {
    hide Blank, AfterSpacedWord, IsWord;
    var rest := gap + (name + t);
    AtNext(s, p, SpellScope(scope), rest);
    if scope.Unscoped? {
      assert "" + rest == rest;
      SpacedWordMissed(s, p, gap, name, "lock_timeout", "session", 0, t);
      SpacedWordMissed(s, p, gap, name, "lock_timeout", "local", 3, t);
    } else {
      assert SpellScope(scope) + rest == scope.gap + (scope.word + rest);
      if IsWord(scope.word, "session") {
        SpacedWordFound(s, p, scope.gap, scope.word, "session", rest);
      } else {
        SpacedWordMissed(s, p, scope.gap, scope.word, "local", "session", 0, rest);
        SpacedWordFound(s, p, scope.gap, scope.word, "local", rest);
      }
    }
  }

  /** `=`, or TO with a word boundary after it. */
  lemma AssignFound(s: string, p: nat, to: string, t: string)
    requires At(s, p, to + t) && (to == "=" || (IsWord(to, "to") && (t != "" ==> !IsIdentPart(t[0]))))
    ensures AfterAssign(s, p) == p + |to| && At(s, p + |to|, t)
  {
    AtNext(s, p, to, t);
    if to == "=" {
      assert s[p..][0] == s[p] == '=';
    } else {
      FindsWord(s, p, to, "to", t);
      assert s[p..][0] == s[p] == to[0];
      assert Lower(to[0]) == 't';
      if t != "" {
        assert s[p + 2..][0] == s[p + 2];
      }
    }
  }

  lemma {:induction false} ValueFound(s: string, p: nat, value: string, t: string)
    requires At(s, p, value + t) && (forall i :: 0 <= i < |value| ==> value[i] != '\n' && value[i] != ';')
    requires t == "" || t[0] == '\n' || t[0] == ';'
    ensures ValueEnd(s, p) == p + |value| && At(s, p + |value|, t)
    decreases |value|
  {
    if value == "" {
      assert value + t == t;
      if t != "" {
        assert s[p..][0] == s[p];
      }
    } else {
      assert s[p..][0] == s[p] == value[0];
      assert value + t == [value[0]] + (value[1..] + t);
      AtNext(s, p, [value[0]], value[1..] + t);
      ValueFound(s, p + 1, value[1..], t);
    }
  }

  lemma SemiFound(s: string, p: nat, semi: bool, t: string)
    requires At(s, p, Semi(semi) + t) && (!semi && t != "" ==> t[0] != ';')
    ensures SkipSemicolon(s, p) == p + |Semi(semi)| && At(s, p + |Semi(semi)|, t)
  {
    AtNext(s, p, Semi(semi), t);
    if s[p..] != "" {
      assert s[p..][0] == s[p];
    }
  }

  /** What stands behind the TO of a well-spelled directive is no part of that word. */
  lemma AfterToIsNoName(d: Directive, rest: string)
    requires d.SetLock? && WellSpelled(d) && Ends(d, rest)
    ensures var t := d.lead + (d.value + (Semi(d.semi) + rest));
      && (IsWord(d.to, "to") && t != "" ==> !IsIdentPart(t[0]))
      && (var u := d.value + (Semi(d.semi) + rest); u != "" ==> !IsSpace(u[0]))
  {
    var u := d.value + (Semi(d.semi) + rest);
    var t := d.lead + u;
    if d.lead != "" {
      assert t[0] == d.lead[0];
    } else {
      assert t == u;
    }
    if d.value != "" {
      assert u[0] == d.value[0];
    } else {
      assert u == Semi(d.semi) + rest;
    }
  }

  function BehindName(d: Directive, rest: string): string
    requires d.SetLock?
  {
    d.pad + (d.to + (d.lead + (d.value + (Semi(d.semi) + rest))))
  }

  lemma Unnest(d: Directive, rest: string)
    ensures d.SetLock? ==>
      Spell(d) + rest == d.word + (SpellScope(d.scope) + (d.gap + (d.name + BehindName(d, rest))))
    ensures d.ResetLock? ==> Spell(d) + rest == d.word + (d.gap + (d.name + (d.pad + (Semi(d.semi) + rest))))
  {
    hide SpellScope, Semi;
    var semi := Semi(d.semi);
    if d.SetLock? {
      SeqAssoc(d.value, semi, rest);
      var value := d.value + semi;
      SeqAssoc(d.lead, value, rest);
      var lead := d.lead + value;
      SeqAssoc(d.to, lead, rest);
      var to := d.to + lead;
      SeqAssoc(d.pad, to, rest);
      var pad := d.pad + to;
      SeqAssoc(d.name, pad, rest);
      var name := d.name + pad;
      SeqAssoc(d.gap, name, rest);
      var gap := d.gap + name;
      SeqAssoc(SpellScope(d.scope), gap, rest);
      SeqAssoc(d.word, SpellScope(d.scope) + gap, rest);
    } else {
      SeqAssoc(d.pad, semi, rest);
      var pad := d.pad + semi;
      SeqAssoc(d.name, pad, rest);
      var name := d.name + pad;
      SeqAssoc(d.gap, name, rest);
      SeqAssoc(d.word, d.gap + name, rest);
    }
  }

  /** The name is found behind SET and its scope. */
  lemma NameFound(s: string, d: Directive, t: string) returns (q: nat)
    requires d.SetLock? && WellSpelled(d) && s == d.word + (SpellScope(d.scope) + (d.gap + (d.name + t)))
    ensures WordAt(s, 0, "set") && 3 <= |s| && AfterScope(s, 3) <= |s|
    ensures q == 3 + |SpellScope(d.scope)| + |d.gap| + |d.name| == AfterSpacedWord(s, AfterScope(s, 3), "lock_timeout") && At(s, q, t)
  {
    hide Blank, IsWord, SpellScope, Lower, AfterScope, AfterSpacedWord, IsScope, IsValue, WordAt;
    assert s[0..] == s;
    FindsWord(s, 0, d.word, "set", SpellScope(d.scope) + (d.gap + (d.name + t)));
    WordLength(d.word, "set");
    ScopeFound(s, 3, d.scope, d.gap, d.name, t);
    SpacedWordFound(s, 3 + |SpellScope(d.scope)|, d.gap, d.name, "lock_timeout", t);
    q := 3 + |SpellScope(d.scope)| + |d.gap| + |d.name|;
  }

  /** `=` or TO and the value are found behind the name. */
  lemma ValuesFound(s: string, q: nat, d: Directive, rest: string) returns (v: nat, e: nat)
    requires d.SetLock? && WellSpelled(d) && Ends(d, rest) && At(s, q, BehindName(d, rest))
    ensures v == q + |d.pad| + |d.to| == AfterAssign(s, SkipSpace(s, q)) && v <= |s|
    ensures e == v + |d.lead| + |d.value| == AfterValue(s, v) && At(s, e, Semi(d.semi) + rest)
  {
    hide Blank, IsWord, IsSpace, IsIdentPart, Semi, Lower, SkipSpace, AfterAssign, ValueEnd, IsScope, IsValue, Ends;
    var last := Semi(d.semi) + rest;
    var value := d.value + last;
    var lead := d.lead + value;
    AfterToIsNoName(d, rest);
    ValueIsPlain(d, rest);
    ToIsNoSpace(d.to, lead);
    SkipsBlank(s, q, d.pad, d.to + lead);
    AssignFound(s, q + |d.pad|, d.to, lead);
    v := q + |d.pad| + |d.to|;
    SkipsBlank(s, v, d.lead, value);
    ValueFound(s, v + |d.lead|, d.value, last);
    e := v + |d.lead| + |d.value|;
  }

  lemma SetFound(d: Directive, rest: string)
    requires d.SetLock? && WellSpelled(d) && Ends(d, rest)
    ensures DirectiveLen(Spell(d) + rest) == |Spell(d)|
  {
    hide WellSpelled, Ends, BehindName, Spell, Semi, SpellScope, WordAt, SkipSpace, AfterScope, AfterSpacedWord, AfterAssign, AfterValue,
         SkipSemicolon, ResetEnd, At;
    var s := Spell(d) + rest;
    Unnest(d, rest);
    var q := NameFound(s, d, BehindName(d, rest));
    var v, e := ValuesFound(s, q, d, rest);
    SemiIsTaken(d, rest);
    SemiFound(s, e, d.semi, rest);
    ToLength(d);
    SpelledLength(d);
  }

  lemma SemiIsTaken(d: Directive, rest: string)
    requires Ends(d, rest)
    ensures !d.semi && rest != "" ==> rest[0] != ';'
  {
  }

  lemma ToLength(d: Directive)
    requires d.SetLock? && WellSpelled(d)
    ensures |d.to| >= 1 && |d.word| == 3
  {
    hide Blank, IsScope, IsValue;
  }

  lemma WordLength(s: string, word: string)
    requires IsWord(s, word)
    ensures |s| == |word|
  {
  }

  lemma ToIsNoSpace(to: string, t: string)
    requires to == "=" || IsWord(to, "to")
    ensures to + t != "" && !IsSpace((to + t)[0]) && |to| >= 1
  {
    assert (to + t)[0] == to[0];
    if to != "=" {
      assert Lower(to[0]) == 't';
    }
  }

  lemma ValueIsPlain(d: Directive, rest: string)
    requires d.SetLock? && WellSpelled(d) && Ends(d, rest)
    ensures forall i :: 0 <= i < |d.value| ==> d.value[i] != '\n' && d.value[i] != ';'
    ensures var last := Semi(d.semi) + rest; last == "" || last[0] == '\n' || last[0] == ';'
    ensures !d.semi && rest != "" ==> rest[0] != ';'
  {
    hide Blank, IsWord, IsScope;
  }

  lemma SpelledLength(d: Directive)
    ensures d.SetLock? ==>
      |Spell(d)| == |d.word| + |SpellScope(d.scope)| + |d.gap| + |d.name| + |d.pad| + |d.to| + |d.lead| + |d.value| + |Semi(d.semi)|
    ensures d.ResetLock? ==> |Spell(d)| == |d.word| + |d.gap| + |d.name| + |d.pad| + |Semi(d.semi)|
  {
    hide SpellScope, Semi;
  }

  /** The name and the blanks behind it are found behind RESET. */
  lemma ResetNameFound(s: string, d: Directive, last: string) returns (q: nat, e: nat)
    requires d.ResetLock? && WellSpelled(d) && s == d.word + (d.gap + (d.name + (d.pad + last)))
    requires last != "" ==> !IsSpace(last[0])
    ensures WordAt(s, 0, "reset") && 5 <= |s| && !WordAt(s, 0, "set")
    ensures 5 < q == AfterSpacedWord(s, 5, "lock_timeout") <= |s|
    ensures e == |d.word| + |d.gap| + |d.name| + |d.pad| == SkipSpace(s, q) && At(s, e, last)
  {
    hide Blank, IsWord, IsSpace, Lower, SkipSpace, AfterSpacedWord, WordAt;
    assert s[0..] == s;
    FindsWord(s, 0, d.word, "reset", d.gap + (d.name + (d.pad + last)));
    WordLength(d.word, "reset");
    ResetIsNotSet(s);
    SpacedWordFound(s, 5, d.gap, d.name, "lock_timeout", d.pad + last);
    WordLength(d.name, "lock_timeout");
    q := 5 + |d.gap| + |d.name|;
    SkipsBlank(s, q, d.pad, last);
    e := q + |d.pad|;
  }

  lemma ResetFound(d: Directive, rest: string)
    requires d.ResetLock? && WellSpelled(d) && Ends(d, rest)
    ensures DirectiveLen(Spell(d) + rest) == |Spell(d)|
  {
    hide WellSpelled, Ends, Spell, Semi, WordAt, SkipSpace, AfterScope, AfterSpacedWord, AfterAssign, AfterValue,
         SkipSemicolon, At, IsSpace;
    var s := Spell(d) + rest;
    Unnest(d, rest);
    LastIsNoSpace(d, rest);
    var q, e := ResetNameFound(s, d, Semi(d.semi) + rest);
    SemiFound(s, e, d.semi, rest);
    SpelledLength(d);
  }

  lemma LastIsNoSpace(d: Directive, rest: string)
    requires d.ResetLock? && Ends(d, rest)
    ensures var last := Semi(d.semi) + rest; last != "" ==> !IsSpace(last[0])
    ensures !d.semi && rest != "" ==> rest[0] != ';'
  {
  }

  lemma ResetIsNotSet(s: string)
    requires WordAt(s, 0, "reset")
    ensures !WordAt(s, 0, "set")
  {
    assert Lower(s[0 + 0]) == "reset"[0];
    NotWord(s, 0, "set", 0);
  }

  /** Every spelling is matched, to its end and no further. */
  lemma SpelledIsMatched(d: Directive, rest: string)
    requires WellSpelled(d) && Ends(d, rest)
    ensures DirectiveLen(Spell(d) + rest) == |Spell(d)| > 0
  {
    hide WellSpelled, Ends, DirectiveLen, Spell;
    SpelledIsNotEmpty(d);
    if d.SetLock? {
      SetFound(d, rest);
    } else {
      ResetFound(d, rest);
    }
  }

  lemma SpelledIsNotEmpty(d: Directive)
    requires WellSpelled(d)
    ensures Spell(d) != ""
  {
    hide Blank, IsWord, SpellScope, Semi, IsScope, IsValue;
  }

  // ---------------------------------------------------------------------
  // What is matched is spelled
  // ---------------------------------------------------------------------

  lemma SkipIsBlank(s: string, p: nat)
    requires p <= |s|
    ensures Blank(s[p..SkipSpace(s, p)])
    ensures SkipSpace(s, p) < |s| ==> !IsSpace(s[SkipSpace(s, p)])
  {
    hide IsSpace;
  }

  lemma SpacedSlice(s: string, p: nat, word: string)
    requires p <= |s| && ';' !in word && AfterSpacedWord(s, p, word) > 0
    ensures var g, q := SkipSpace(s, p), AfterSpacedWord(s, p, word);
      p < g && q == g + |word| && q <= |s| && Blank(s[p..g]) && IsWord(s[g..q], word)
  {
    hide IsSpace, SkipSpace, Blank, IsWord;
    SkipIsBlank(s, p);
    WordSlice(s, SkipSpace(s, p), word);
  }

  lemma ScopeSlice(s: string, p: nat) returns (scope: Scope)
    requires p <= |s|
    ensures IsScope(scope) && AfterScope(s, p) <= |s| && SpellScope(scope) == s[p..AfterScope(s, p)]
  {
    hide IsSpace, SkipSpace, Blank, IsWord, AfterSpacedWord;
    var q := AfterScope(s, p);
    if q == p {
      scope := Unscoped;
    } else {
      if AfterSpacedWord(s, p, "session") > 0 {
        SpacedSlice(s, p, "session");
      } else {
        SpacedSlice(s, p, "local");
      }
      var g := SkipSpace(s, p);
      scope := Scoped(s[p..g], s[g..q]);
      assert s[p..g] + s[g..q] == s[p..q];
    }
  }

  lemma AssignSlice(s: string, p: nat)
    requires p <= |s| && AfterAssign(s, p) > 0
    ensures var q := AfterAssign(s, p);
      && p < q <= |s|
      && (s[p..q] == "=" || (IsWord(s[p..q], "to") && (q < |s| ==> !IsIdentPart(s[q]))))
  {
    hide IsIdentPart, Lower;
    if s[p] == '=' {
      assert s[p..p + 1] == "=";
    } else {
      WordSlice(s, p, "to");
    }
  }

  lemma {:induction false} ValueSlice(s: string, p: nat)
    requires p <= |s|
    ensures var e := ValueEnd(s, p);
      && (forall i :: p <= i < e ==> s[i] != '\n' && s[i] != ';')
      && (e < |s| ==> s[e] == '\n' || s[e] == ';')
    decreases |s| - p
  {
    if p < |s| && s[p] != '\n' && s[p] != ';' {
      ValueSlice(s, p + 1);
    }
  }

  lemma Join(s: string, p: nat, q: nat, r: nat)
    requires p <= q <= r <= |s|
    ensures s[p..q] + s[q..r] == s[p..r]
  {
  }

  lemma SetIsSpelled(s: string) returns (d: Directive)
    requires SetEnd(s) > 0
    ensures var n := DirectiveLen(s); d.SetLock? && WellSpelled(d) && Ends(d, s[n..]) && Spell(d) == s[..n]
  {
    hide IsSpace, IsIdentPart, SkipSpace, Blank, IsWord, AfterSpacedWord, AfterScope, AfterAssign, ValueEnd, IsScope, SpellScope;
    var scope := ScopeSlice(s, 3);
    var a := AfterScope(s, 3);
    SpacedSlice(s, a, "lock_timeout");
    var g, b := SkipSpace(s, a), AfterSpacedWord(s, a, "lock_timeout");
    SkipIsBlank(s, b);
    var c := SkipSpace(s, b);
    AssignSlice(s, c);
    var v := AfterAssign(s, c);
    SkipIsBlank(s, v);
    var w := SkipSpace(s, v);
    ValueSlice(s, w);
    var e := ValueEnd(s, w);
    var n := DirectiveLen(s);
    WordSlice(s, 0, "set");
    d := SetLock(s[0..3], scope, s[a..g], s[g..b], s[b..c], s[c..v], s[v..w], s[w..e], n > e);
    SlicesSpell(s, d, a, g, b, c, v, w, e, n);
    SliceEnds(s, d, v, w, e, n);
  }

  lemma SlicesSpell(s: string, d: Directive, a: nat, g: nat, b: nat, c: nat, v: nat, w: nat, e: nat, n: nat)
    requires 3 <= a <= g <= b <= c <= v <= w <= e <= n <= |s| && d.SetLock?
    requires d.word == s[0..3] && SpellScope(d.scope) == s[3..a] && d.gap == s[a..g] && d.name == s[g..b] && d.pad == s[b..c]
    requires d.to == s[c..v] && d.lead == s[v..w] && d.value == s[w..e] && d.semi == (n > e) && n == SkipSemicolon(s, e)
    ensures Spell(d) == s[..n]
  {
    hide SpellScope;
    assert s[e..n] == Semi(d.semi);
    Join(s, w, e, n);
    Join(s, v, w, n);
    Join(s, c, v, n);
    Join(s, b, c, n);
    Join(s, g, b, n);
    Join(s, a, g, n);
    Join(s, 3, a, n);
    Join(s, 0, 3, n);
    assert s[0..n] == s[..n];
  }

  lemma SliceEnds(s: string, d: Directive, v: nat, w: nat, e: nat, n: nat)
    requires v <= w <= e <= n <= |s| && d.SetLock? && d.lead == s[v..w] && d.value == s[w..e]
    requires d.semi == (n > e) && n == SkipSemicolon(s, e)
    requires w < |s| ==> !IsSpace(s[w])
    requires d.to == "=" || (v < |s| ==> !IsIdentPart(s[v]))
    requires forall i :: w <= i < e ==> s[i] != '\n' && s[i] != ';'
    requires e < |s| ==> s[e] == '\n' || s[e] == ';'
    ensures IsValue(d.value) && Ends(d, s[n..])
    ensures d.to == "=" || (d.lead == "" && d.value != "" ==> !IsIdentPart(d.value[0]))
  {
    hide IsIdentPart;
    if !d.semi && n < |s| {
      assert s[n..][0] == s[n];
    }
  }

  lemma ResetIsSpelled(s: string) returns (d: Directive)
    requires SetEnd(s) == 0 && ResetEnd(s) > 0
    ensures var n := DirectiveLen(s); d.ResetLock? && WellSpelled(d) && Ends(d, s[n..]) && Spell(d) == s[..n]
  {
    hide IsSpace, SkipSpace, Blank, IsWord, AfterSpacedWord, SetEnd;
    SpacedSlice(s, 5, "lock_timeout");
    var g, b := SkipSpace(s, 5), AfterSpacedWord(s, 5, "lock_timeout");
    SkipIsBlank(s, b);
    var c := SkipSpace(s, b);
    var n := DirectiveLen(s);
    WordSlice(s, 0, "reset");
    d := ResetLock(s[0..5], s[5..g], s[g..b], s[b..c], n > c);
    assert s[c..n] == Semi(d.semi);
    Join(s, b, c, n);
    Join(s, g, b, n);
    Join(s, 5, g, n);
    Join(s, 0, 5, n);
    assert s[0..n] == s[..n];
    if !d.semi && n < |s| {
      assert s[n..][0] == s[n];
    }
  }

  /** What the pattern matches is a spelling, and ends where that does. */
  lemma MatchedIsSpelled(s: string) returns (d: Directive)
    requires DirectiveLen(s) > 0
    ensures var n := DirectiveLen(s); WellSpelled(d) && Ends(d, s[n..]) && Spell(d) == s[..n]
  {
    hide WellSpelled, Ends, Spell, SetEnd, ResetEnd;
    if SetEnd(s) > 0 {
      d := SetIsSpelled(s);
    } else {
      d := ResetIsSpelled(s);
    }
  }
}
