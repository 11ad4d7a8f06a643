/** Go's strings.TrimSpace, TrimPrefix, TrimSuffix, ToLower, Split and Join on sequences of characters. */
module Text {

  /** unicode.IsSpace: the characters with the White_Space property. */
  predicate IsSpace(ch: char) {
    || '\t' <= ch <= '\r' || ch == ' ' || ch == '\U{85}' || ch == '\U{A0}' || ch == '\U{1680}'
    || '\U{2000}' <= ch <= '\U{200A}' || ch == '\U{2028}' || ch == '\U{2029}'
    || ch == '\U{202F}' || ch == '\U{205F}' || ch == '\U{3000}'
  }

  function TrimLeft(s: string): string {
    if s != "" && IsSpace(s[0]) then TrimLeft(s[1..]) else s
  }

  function TrimRight(s: string): string {
    if s != "" && IsSpace(s[|s| - 1]) then TrimRight(s[..|s| - 1]) else s
  }

  function Trim(s: string): string {
    TrimRight(TrimLeft(s))
  }

  /** Nothing left to trim. */
  predicate Trimmed(s: string) {
    s != "" ==> !IsSpace(s[0]) && !IsSpace(s[|s| - 1])
  }

  /** Lower case of the letters whose lower case is ASCII; no other letter can matter to a
      comparison with an ASCII heading. */
  function LowerChar(ch: char): char {
    if 'A' <= ch <= 'Z' then ch - 'A' + 'a'
    else if ch == '\U{0130}' then 'i'
    else if ch == '\U{212A}' then 'k'
    else ch
  }

  function Lower(s: string): (r: string)
    ensures |r| == |s|
  {
    seq(|s|, i requires 0 <= i < |s| => LowerChar(s[i]))
  }

  function Split(s: string, sep: char): (parts: seq<string>)
    ensures |parts| >= 1
  {
    if s == "" then [""] else
      var parts := Split(s[1..], sep);
      if s[0] == sep then [""] + parts else [[s[0]] + parts[0]] + parts[1..]
  }

  function Join(parts: seq<string>, sep: char): string {
    if |parts| == 0 then "" else if |parts| == 1 then parts[0]
    else parts[0] + [sep] + Join(parts[1..], sep)
  }

  function TrimPrefix(s: string, prefix: string): string {
    if prefix <= s then s[|prefix|..] else s
  }

  function TrimSuffix(s: string, suffix: string): string {
    if |suffix| <= |s| && s[|s| - |suffix|..] == suffix then s[..|s| - |suffix|] else s
  }

  lemma {:induction false} TrimLeftSpec(s: string)
    ensures TrimLeft(s) != "" ==> !IsSpace(TrimLeft(s)[0])
    ensures exists k :: 0 <= k <= |s| && TrimLeft(s) == s[k..]
    decreases |s|
  {
    if s != "" && IsSpace(s[0]) {
      TrimLeftSpec(s[1..]);
      var k :| 0 <= k <= |s| - 1 && TrimLeft(s[1..]) == s[1..][k..];
      assert s[1..][k..] == s[k + 1..];
    } else {
      assert s[0..] == s;
    }
  }

  lemma {:induction false} TrimRightSpec(s: string)
    ensures TrimRight(s) != "" ==> !IsSpace(TrimRight(s)[|TrimRight(s)| - 1])
    ensures exists k :: 0 <= k <= |s| && TrimRight(s) == s[..k]
    decreases |s|
  {
    if s != "" && IsSpace(s[|s| - 1]) {
      TrimRightSpec(s[..|s| - 1]);
      var k :| 0 <= k <= |s| - 1 && TrimRight(s[..|s| - 1]) == s[..|s| - 1][..k];
      assert s[..|s| - 1][..k] == s[..k];
    } else {
      assert s[..|s|] == s;
    }
  }

  lemma {:induction false} TrimSettles(s: string)
    ensures Trimmed(Trim(s))
    ensures Trimmed(s) ==> Trim(s) == s
    ensures forall ch :: ch in Trim(s) ==> ch in s
  {
    TrimLeftSpec(s);
    TrimRightSpec(TrimLeft(s));
    var t := TrimLeft(s);
    var j :| 0 <= j <= |s| && t == s[j..];
    var k :| 0 <= k <= |t| && TrimRight(t) == t[..k];
    assert Trim(s) != "" ==> Trim(s)[0] == t[0];
  }

  lemma {:induction false} SplitUnbroken(s: string, sep: char)
    requires sep !in s
    ensures Split(s, sep) == [s]
    decreases |s|
  {
    if s != "" {
      SplitUnbroken(s[1..], sep);
      assert [s[0]] + s[1..] == s;
    }
  }

  lemma {:induction false} SplitPartsUnbroken(s: string, sep: char)
    ensures forall i :: 0 <= i < |Split(s, sep)| ==> sep !in Split(s, sep)[i]
    decreases |s|
  {
    if s != "" {
      SplitPartsUnbroken(s[1..], sep);
    }
  }

  lemma {:induction false} SplitHead(head: string, sep: char, rest: string)
    requires sep !in head
    ensures Split(head + [sep] + rest, sep) == [head] + Split(rest, sep)
    decreases |head|
  {
    var s := head + [sep] + rest;
    if head == "" {
      assert s[1..] == rest;
    } else {
      assert s[1..] == head[1..] + [sep] + rest;
      SplitHead(head[1..], sep, rest);
      assert [head[0]] + head[1..] == head;
    }
  }

  /** Splitting undoes joining for parts free of the separator. */
  lemma {:induction false} SplitJoin(parts: seq<string>, sep: char)
    requires |parts| >= 1 && forall i :: 0 <= i < |parts| ==> sep !in parts[i]
    ensures Split(Join(parts, sep), sep) == parts
    decreases |parts|
  {
    if |parts| == 1 {
      SplitUnbroken(parts[0], sep);
    } else {
      SplitJoin(parts[1..], sep);
      SplitHead(parts[0], sep, Join(parts[1..], sep));
    }
  }

  /** A split that gives the parts back cannot have cut one of them. */
  lemma SplitJoinOnly(parts: seq<string>, sep: char)
    requires Split(Join(parts, sep), sep) == parts
    ensures forall i :: 0 <= i < |parts| ==> sep !in parts[i]
  {
    SplitPartsUnbroken(Join(parts, sep), sep);
  }

  lemma {:induction false} JoinEmpty(parts: seq<string>, sep: char)
    ensures Join(parts, sep) == "" <==> parts == [] || parts == [""]
  {
  }

  // ----- Character by character -----

  /** The 25 characters with the White_Space property. */
  const WHITE_SPACE: set<char> := {
    '\t', '\n', '\U{B}', '\U{C}', '\r', ' ', '\U{85}', '\U{A0}', '\U{1680}',
    '\U{2000}', '\U{2001}', '\U{2002}', '\U{2003}', '\U{2004}', '\U{2005}',
    '\U{2006}', '\U{2007}', '\U{2008}', '\U{2009}', '\U{200A}',
    '\U{2028}', '\U{2029}', '\U{202F}', '\U{205F}', '\U{3000}'
  }

  lemma SpaceIsWhite(ch: char)
    ensures IsSpace(ch) <==> ch in WHITE_SPACE
  {
  }

  ghost predicate White(s: string) {
    forall i :: 0 <= i < |s| ==> s[i] in WHITE_SPACE
  }

  /** White space, the core, white space, where the core neither starts nor ends with any. */
  ghost predicate Surrounds(lead: string, core: string, trail: string) {
    White(lead) && White(trail)
    && (core != "" ==> core[0] !in WHITE_SPACE && core[|core| - 1] !in WHITE_SPACE)
  }

  lemma {:induction false} TrimLeftCuts(s: string) returns (lead: string)
    ensures White(lead) && s == lead + TrimLeft(s)
    decreases |s|
  {
    lead := "";
    if s != "" && IsSpace(s[0]) {
      var more := TrimLeftCuts(s[1..]);
      SpaceIsWhite(s[0]);
      lead := [s[0]] + more;
      assert s == [s[0]] + s[1..];
    }
  }

  lemma {:induction false} TrimRightCuts(s: string) returns (trail: string)
    ensures White(trail) && s == TrimRight(s) + trail
    decreases |s|
  {
    trail := "";
    if s != "" && IsSpace(s[|s| - 1]) {
      var more := TrimRightCuts(s[..|s| - 1]);
      SpaceIsWhite(s[|s| - 1]);
      trail := more + [s[|s| - 1]];
      assert s == s[..|s| - 1] + [s[|s| - 1]];
    }
  }

  lemma {:induction false} TrimCuts(s: string) returns (lead: string, trail: string)
    ensures Surrounds(lead, Trim(s), trail) && s == lead + Trim(s) + trail
  {
    lead := TrimLeftCuts(s);
    trail := TrimRightCuts(TrimLeft(s));
    TrimSettles(s);
    if Trim(s) != "" {
      SpaceIsWhite(Trim(s)[0]);
      SpaceIsWhite(Trim(s)[|Trim(s)| - 1]);
    }
    assert s == lead + (Trim(s) + trail) == lead + Trim(s) + trail;
  }

  lemma {:induction false} TrimLeftSkips(lead: string, s: string)
    requires White(lead) && (s != "" ==> s[0] !in WHITE_SPACE)
    ensures TrimLeft(lead + s) == s
    decreases |lead|
  {
    if lead == "" {
      assert lead + s == s;
      if s != "" {
        SpaceIsWhite(s[0]);
      }
    } else {
      SpaceIsWhite(lead[0]);
      TrimLeftSkips(lead[1..], s);
      assert (lead + s)[1..] == lead[1..] + s;
    }
  }

  lemma {:induction false} TrimRightSkips(s: string, trail: string)
    requires White(trail) && (s != "" ==> s[|s| - 1] !in WHITE_SPACE)
    ensures TrimRight(s + trail) == s
    decreases |trail|
  {
    if trail == "" {
      assert s + trail == s;
      if s != "" {
        SpaceIsWhite(s[|s| - 1]);
      }
    } else {
      SpaceIsWhite(trail[|trail| - 1]);
      TrimRightSkips(s, trail[..|trail| - 1]);
      assert (s + trail)[..|s + trail| - 1] == s + trail[..|trail| - 1];
    }
  }

  lemma {:induction false} TrimLeftOfWhite(s: string)
    requires White(s)
    ensures TrimLeft(s) == ""
  {
    TrimLeftSkips(s, "");
    assert s + "" == s;
  }

  /** Trimming gives back what white space surrounds, and nothing else. */
  lemma {:induction false} TrimIff(s: string, core: string)
    ensures Trim(s) == core <==> exists lead, trail :: Surrounds(lead, core, trail) && s == lead + core + trail
  {
    var lead, trail := TrimCuts(s);
    forall l, t | Surrounds(l, core, t) && s == l + core + t ensures Trim(s) == core {
      if core == "" {
        assert White(l + t) && s == l + t;
        TrimLeftOfWhite(s);
      } else {
        assert s == l + (core + t);
        TrimLeftSkips(l, core + t);
        TrimRightSkips(core, t);
      }
    }
  }

  /** The characters whose lower case is this small letter. */
  function CasesOf(small: char): set<char>
    requires 'a' <= small <= 'z'
  {
    {small, small - 'a' + 'A'} + if small == 'i' then {'\U{0130}'} else if small == 'k' then {'\U{212A}'} else {}
  }

  lemma LowerCharIff(ch: char, small: char)
    requires 'a' <= small <= 'z' || small == '_'
    ensures LowerChar(ch) == small <==> if small == '_' then ch == '_' else ch in CasesOf(small)
  {
  }

  lemma LowerKeepsSpace(ch: char)
    ensures LowerChar(ch) in WHITE_SPACE <==> ch in WHITE_SPACE
    ensures ch in WHITE_SPACE ==> LowerChar(ch) == ch
  {
  }

  /** A word of small letters and underscores. */
  ghost predicate Small(s: string) {
    forall i :: 0 <= i < |s| ==> 'a' <= s[i] <= 'z' || s[i] == '_'
  }

  /** The same word, in whatever case. */
  ghost predicate Spells(word: string, small: string)
    requires Small(small)
  {
    |word| == |small| && forall i :: 0 <= i < |word| ==>
      if small[i] == '_' then word[i] == '_' else word[i] in CasesOf(small[i])
  }

  lemma LowerSlices(s: string, i: nat, j: nat)
    requires i <= j <= |s|
    ensures Lower(s[i..j]) == Lower(s)[i..j]
  {
  }

  /** A text whose lower case is in three parts is itself in three parts. */
  lemma LowerInParts(s: string, a: string, b: string, c: string, i: nat, j: nat)
    requires Lower(s) == a + b + c && i == |a| && j == |a| + |b|
    ensures j <= |s| && s == s[..i] + s[i..j] + s[j..]
    ensures Lower(s[..i]) == a && Lower(s[i..j]) == b && Lower(s[j..]) == c
  {
    LowerSlices(s, 0, i);
    LowerSlices(s, i, j);
    LowerSlices(s, j, |s|);
    assert s[0..i] == s[..i] && s[j..|s|] == s[j..];
    assert (a + b + c)[0..i] == a && (a + b + c)[i..j] == b && (a + b + c)[j..|s|] == c;
  }

  lemma WhiteInAnyCase(s: string)
    ensures White(Lower(s)) <==> White(s)
  {
    forall i | 0 <= i < |s| ensures Lower(s)[i] in WHITE_SPACE <==> s[i] in WHITE_SPACE {
      LowerKeepsSpace(s[i]);
    }
  }

  lemma {:induction false} SpellsIff(word: string, small: string)
    requires Small(small)
    ensures Lower(word) == small <==> Spells(word, small)
  {
    if |word| == |small| {
      forall i | 0 <= i < |word|
        ensures Lower(word)[i] == small[i] <==>
          if small[i] == '_' then word[i] == '_' else word[i] in CasesOf(small[i])
      {
        LowerCharIff(word[i], small[i]);
      }
      assert Spells(word, small) ==> forall i :: 0 <= i < |word| ==> Lower(word)[i] == small[i];
    }
  }

  lemma SmallIsNotWhite(small: string)
    requires Small(small)
    ensures small != "" ==> small[0] !in WHITE_SPACE && small[|small| - 1] !in WHITE_SPACE
  {
  }

  /** The word in some case, with white space around it. */
  ghost predicate Spelled(s: string, lead: string, word: string, trail: string, small: string)
    requires Small(small)
  {
    White(lead) && White(trail) && Spells(word, small) && s == lead + word + trail
  }

  lemma {:induction false} SpelledTrims(s: string, lead: string, word: string, trail: string, small: string)
    requires Small(small)
    requires Spelled(s, lead, word, trail, small)
    ensures Trim(Lower(s)) == small
  {
    WhiteInAnyCase(lead);
    WhiteInAnyCase(trail);
    SpellsIff(word, small);
    SmallIsNotWhite(small);
    assert Lower(s) == Lower(lead) + small + Lower(trail);
    assert Surrounds(Lower(lead), small, Lower(trail));
    TrimIff(Lower(s), small);
  }

  lemma {:induction false} TrimsSpelled(s: string, small: string) returns (lead: string, word: string, trail: string)
    requires Small(small)
    requires Trim(Lower(s)) == small
    ensures Spelled(s, lead, word, trail, small)
  {
    var l, t := TrimCuts(Lower(s));
    var i, j := |l|, |l| + |small|;
    LowerInParts(s, l, small, t, i, j);
    lead, word, trail := s[..i], s[i..j], s[j..];
    WhiteInAnyCase(lead);
    SpellsIff(word, small);
    WhiteInAnyCase(trail);
  }

  /** A text lower-cased and trimmed is a word exactly when it is that word in some case, with white
      space around it. */
  lemma {:induction false} SpelledIff(s: string, small: string)
    requires Small(small)
    ensures Trim(Lower(s)) == small <==> exists lead, word, trail :: Spelled(s, lead, word, trail, small)
  {
    if Trim(Lower(s)) == small {
      var lead, word, trail := TrimsSpelled(s, small);
    }
    forall lead, word, trail | Spelled(s, lead, word, trail, small) ensures Trim(Lower(s)) == small {
      SpelledTrims(s, lead, word, trail, small);
    }
  }
}
