/** How the server reads a setting of lock_timeout that is written out. */
module SettingSpelling {
  import opened Options
  import opened Text
  import opened SqlLexer
  import opened LockEffects

  predicate ServerBlank(s: string) { forall i :: 0 <= i < |s| ==> IsServerSpace(s[i]) }

  /** lock_timeout in any letter case, plain or in double quotes. */
  predicate IsName(s: string) { IsWord(s, "lock_timeout") || IsWord(s, "\"lock_timeout\"") }

  /** What follows a keyword: blanks, and then no blank. */
  predicate Follows(b: string, t: string) {
    ServerBlank(b) && (t != "" ==> !IsServerSpace(t[0])) && (b == "" && t != "" ==> !IsNamePart(t[0]))
  }

  lemma {:induction false} SkipBlank(b: string, t: string)
    requires ServerBlank(b) && (t != "" ==> !IsServerSpace(t[0]))
    ensures Skip(b + t) == t
  {
    if b == "" {
      assert b + t == t;
    } else {
      assert (b + t)[1..] == b[1..] + t;
      SkipBlank(b[1..], t);
    }
  }

  lemma StartsWith(w: string, word: string, t: string)
    requires IsWord(w, word)
    ensures WordAt(w + t, 0, word) && (w + t)[|word|..] == t
  {
    forall k | 0 <= k < |word| ensures Lower((w + t)[0 + k]) == word[k] {
      assert (w + t)[k] == w[k];
    }
  }

  /** A keyword is read, and the blanks behind it. */
  lemma WordRead(w: string, word: string, b: string, t: string)
    requires IsWord(w, word) && Follows(b, t)
    ensures LockEffects.AfterWord(w + (b + t), word) == Some(t)
  {
    hide IsNamePart, IsServerSpace, Skip;
    StartsWith(w, word, b + t);
    SkipBlank(b, t);
    if b != "" {
      SpaceIsNoName(b[0]);
      assert (w + (b + t))[|w|] == b[0];
    } else if t != "" {
      assert (w + (b + t))[|w|] == t[0];
    }
  }

  lemma SpaceIsNoName(c: char)
    ensures IsServerSpace(c) ==> !IsNamePart(c)
  {
  }

  /** A word that differs is not read. */
  lemma WordNotRead(s: string, w: string, other: string, word: string, k: nat, t: string)
    requires s == w + t && IsWord(w, other) && k < |other| && k < |word| && other[k] != word[k]
    ensures LockEffects.AfterWord(s, word) == None && !WordAt(s, 0, word)
  {
    hide Skip, IsNamePart;
    assert s[0 + k] == w[k];
  }

  lemma NameRead(name: string, b: string, t: string)
    requires IsName(name) && Follows(b, t)
    ensures LockEffects.AfterName(name + (b + t)) == Some(t)
  {
    hide LockEffects.AfterWord, IsServerSpace, IsNamePart;
    var s := name + (b + t);
    if IsWord(name, "\"lock_timeout\"") {
      StartsWith(name, "\"lock_timeout\"", b + t);
      SkipBlank(b, t);
    } else {
      WordNotRead(s, name, "lock_timeout", "\"lock_timeout\"", 0, b + t);
      WordRead(name, "lock_timeout", b, t);
    }
  }

  lemma NameStarts(name: string, t: string)
    requires IsName(name)
    ensures var s := name + t; s != "" && !IsServerSpace(s[0])
    ensures LockEffects.AfterWord(name + t, "session") == None && LockEffects.AfterWord(name + t, "local") == None
  {
    hide LockEffects.AfterWord;
    assert (name + t)[0] == name[0];
    if IsWord(name, "lock_timeout") {
      assert Lower(name[0]) == 'l';
      WordNotRead(name + t, name, "lock_timeout", "session", 0, t);
      WordNotRead(name + t, name, "lock_timeout", "local", 3, t);
    } else {
      assert Lower(name[0]) == '"';
      WordNotRead(name + t, name, "\"lock_timeout\"", "session", 0, t);
      WordNotRead(name + t, name, "\"lock_timeout\"", "local", 0, t);
    }
  }

  /** An optional SESSION or LOCAL, with the blanks behind it. */
  predicate IsScope(scope: string, gap: string, local: bool) {
    if scope == "" then gap == "" && !local
    else IsWord(scope, if local then "local" else "session") && gap != "" && ServerBlank(gap)
  }

  lemma ScopeRead(scope: string, gap: string, local: bool, name: string, t: string)
    requires IsScope(scope, gap, local) && IsName(name)
    ensures var s := scope + (gap + (name + t));
      && LockEffects.AfterScope(s) == name + t && (LockEffects.AfterWord(s, "local").Some? <==> local)
      && s != "" && !IsServerSpace(s[0])
  {
    hide LockEffects.AfterWord, IsServerSpace, IsName;
    var u := name + t;
    var s := scope + (gap + u);
    NameStarts(name, t);
    if scope == "" {
      assert s == u;
    } else {
      ScopeStarts(scope, local, gap + u);
      if local {
        WordNotRead(s, scope, "local", "session", 0, gap + u);
        WordRead(scope, "local", gap, u);
      } else {
        WordNotRead(s, scope, "session", "local", 0, gap + u);
        WordRead(scope, "session", gap, u);
      }
    }
  }

  lemma ScopeStarts(scope: string, local: bool, t: string)
    requires IsWord(scope, if local then "local" else "session")
    ensures scope + t != "" && !IsServerSpace((scope + t)[0])
  {
    assert (scope + t)[0] == scope[0];
    assert Lower(scope[0]) == if local then 'l' else 's';
  }

  /** `=` anywhere, or TO as a word of its own. */
  predicate IsTo(to: string, lead: string, v: string) {
    to == "=" || (IsWord(to, "to") && Follows(lead, v))
  }

  lemma ToRead(to: string, lead: string, v: string)
    requires IsTo(to, lead, v) && ServerBlank(lead) && v != "" && !IsServerSpace(v[0])
    ensures LockEffects.AfterTo(to + (lead + v)) == Some(v)
    ensures var s := to + (lead + v); s != "" && !IsServerSpace(s[0])
  {
    hide LockEffects.AfterWord, IsNamePart;
    var s := to + (lead + v);
    assert s[0] == to[0];
    if to == "=" {
      assert s[1..] == lead + v;
      SkipBlank(lead, v);
    } else {
      assert Lower(to[0]) == 't';
      WordRead(to, "to", lead, v);
    }
  }

  /**
   * SET, an optional scope, the name, `=` or TO, and a value: in any letter
   * case and with any blanks, the server sets that value, LOCAL or not.
   */
  lemma SettingIsRead(w: string, b: string, scope: string, gap: string, local: bool, name: string, pad: string,
                      to: string, lead: string, v: string)
    requires IsWord(w, "set") && b != "" && ServerBlank(b) && IsScope(scope, gap, local) && IsName(name)
    requires ServerBlank(pad) && IsTo(to, lead, v) && ServerBlank(lead) && v != "" && !IsServerSpace(v[0])
    requires to != "=" && IsWord(name, "lock_timeout") ==> pad != ""
    ensures SettingAt(w + (b + (scope + (gap + (name + (pad + (to + (lead + v)))))))) == Sets(Stated(v), local)
  {
    hide LockEffects.AfterWord, LockEffects.AfterTo, LockEffects.AfterName, LockEffects.AfterScope, IsServerSpace, IsScope, IsWord, Stated;
    var x := to + (lead + v);
    var u := name + (pad + x);
    var t := scope + (gap + u);
    ToRead(to, lead, v);
    ScopeRead(scope, gap, local, name, pad + x);
    WordRead(w, "set", b, t);
    if IsWord(name, "lock_timeout") {
      NameFollows(pad, to, x);
      NameRead(name, pad, x);
    } else {
      QuotedNameRead(name, pad, x);
    }
  }

  lemma NameFollows(pad: string, to: string, x: string)
    requires ServerBlank(pad) && to <= x && x != "" && !IsServerSpace(x[0]) && (to == "=" || pad != "")
    ensures Follows(pad, x)
  {
  }

  lemma QuotedNameRead(name: string, pad: string, x: string)
    requires IsWord(name, "\"lock_timeout\"") && ServerBlank(pad) && (x != "" ==> !IsServerSpace(x[0]))
    ensures LockEffects.AfterName(name + (pad + x)) == Some(x)
  {
    hide LockEffects.AfterWord, IsServerSpace;
    StartsWith(name, "\"lock_timeout\"", pad + x);
    SkipBlank(pad, x);
  }

  /** RESET of the name, or RESET ALL or DISCARD ALL. */
  lemma ResetIsRead(w: string, word: string, b: string, name: string, t: string)
    requires (word == "reset" || word == "discard") && IsWord(w, word) && b != "" && ServerBlank(b)
    requires (word == "reset" && IsName(name)) || IsWord(name, "all")
    requires Follows("", t)
    ensures SettingAt(w + (b + (name + t))) == Resets
  {
    hide LockEffects.AfterWord, LockEffects.AfterName, IsServerSpace, IsNamePart, Skip;
    var u := name + t;
    var s := w + (b + u);
    assert "" + t == t;
    if IsWord(name, "all") {
      AllStarts(name, t);
      WordRead(name, "all", "", t);
    } else {
      NameStarts(name, t);
      NameRead(name, "", t);
    }
    WordNotRead(s, w, word, "set", 0, b + u);
    if word == "discard" {
      WordNotRead(s, w, word, "reset", 0, b + u);
    }
    WordRead(w, word, b, u);
  }

  lemma AllStarts(name: string, t: string)
    requires IsWord(name, "all")
    ensures name + t != "" && !IsServerSpace((name + t)[0])
  {
    assert (name + t)[0] == name[0];
    assert Lower(name[0]) == 'a';
  }
}
