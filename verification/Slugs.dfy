// internal/config: slugs, and the identifiers of new profiles.
module Slugs {
  import opened Basics

  predicate IsSlugChar(c: char) {
    'a' <= c <= 'z' || '0' <= c <= '9'
  }

  // What the loop of Slugify has written for s: the characters of a slug, and one dash for each stretch of
  // others.
  function Dashed(s: string): string {
    if s == [] then []
    else
      var out, c := Dashed(s[..|s| - 1]), s[|s| - 1];
      if IsSlugChar(c) then out + [c]
      else if out != [] && out[|out| - 1] == '-' then out
      else out + ['-']
  }

  function TrimDashes(s: string): string {
    TrimDashesRight(TrimDashesLeft(s))
  }

  function TrimDashesLeft(s: string): string {
    if s != [] && s[0] == '-' then TrimDashesLeft(s[1..]) else s
  }

  function TrimDashesRight(s: string): string {
    if s != [] && s[|s| - 1] == '-' then TrimDashesRight(s[..|s| - 1]) else s
  }

  function Slug(s: string): string {
    TrimDashes(Dashed(ToLower(TrimSpace(s))))
  }

  method Slugify(s: string) returns (slug: string)
    ensures slug == Slug(s)
  {
    var t := ToLower(TrimSpace(s));
    var b: string := [];
    var lastDash := false;
    var i := 0;
    while i < |t|
      invariant 0 <= i <= |t|
      invariant b == Dashed(t[..i])
      invariant lastDash <==> b != [] && b[|b| - 1] == '-'
    {
      assert t[..i + 1][..i] == t[..i];
      if IsSlugChar(t[i]) {
        b := b + [t[i]];
        lastDash := false;
      } else if !lastDash {
        b := b + ['-'];
        lastDash := true;
      }
      i := i + 1;
    }
    assert t[..|t|] == t;
    slug := TrimDashes(b);
  }

  // Lower-case letters, digits and dashes, no dash at either end and no two in a row.
  predicate IsSlug(s: string) {
    OnlyDashed(s) && (s != [] ==> s[0] != '-' && s[|s| - 1] != '-')
  }

  predicate OnlyDashed(s: string) {
    && (forall c | c in s :: IsSlugChar(c) || c == '-')
    && (forall i | 0 <= i < |s| - 1 :: s[i] != '-' || s[i + 1] != '-')
  }

  lemma {:induction false} DashedIsDashed(s: string)
    ensures OnlyDashed(Dashed(s))
  {
    if s != [] {
      DashedIsDashed(s[..|s| - 1]);
    }
  }

  lemma {:induction false} TrimmedLeft(s: string)
    requires OnlyDashed(s)
    ensures var t := TrimDashesLeft(s); OnlyDashed(t) && (t != [] ==> t[0] != '-')
  {
    if s != [] && s[0] == '-' {
      TrimmedLeft(s[1..]);
    }
  }

  lemma {:induction false} TrimmedRight(s: string)
    requires OnlyDashed(s) && (s != [] ==> s[0] != '-')
    ensures IsSlug(TrimDashesRight(s))
  {
    if s != [] && s[|s| - 1] == '-' {
      TrimmedRight(s[..|s| - 1]);
    }
  }

  lemma {:induction false} DashedSlug(s: string)
    requires OnlyDashed(s)
    ensures Dashed(s) == s
  {
    if s != [] {
      var before, c := s[..|s| - 1], s[|s| - 1];
      BeforeLast(s);
      DashedSlug(before);
      hide OnlyDashed;
      assert s == before + [c];
    }
  }

  lemma BeforeLast(s: string)
    requires OnlyDashed(s) && s != []
    ensures var before, c := s[..|s| - 1], s[|s| - 1];
            && OnlyDashed(before) && (IsSlugChar(c) || c == '-')
            && (c == '-' && before != [] ==> before[|before| - 1] != '-')
  {
    if |s| > 1 {
      assert s[|s| - 2] != '-' || s[|s| - 1] != '-';
    }
    assert s[|s| - 1] in s;
  }

  lemma {:induction false} LowerSlug(s: string)
    requires forall c | c in s :: IsSlugChar(c) || c == '-'
    ensures ToLower(s) == s
  {
    if s != [] {
      assert s[0] in s;
      LowerSlug(s[1..]);
    }
  }

  lemma TrimSlug(s: string)
    requires forall c | c in s :: !IsSpace(c)
    ensures TrimSpace(s) == s
  {
    if s != [] {
      assert s[0] in s && s[|s| - 1] in s;
    }
  }

  // The result is a slug, and slugs are exactly the strings that Slugify leaves as they are: it is
  // idempotent.
  lemma SlugsAreTheFixpoints(s: string)
    ensures IsSlug(Slug(s))
    ensures Slug(s) == s <==> IsSlug(s)
    ensures Slug(Slug(s)) == Slug(s)
  {
    SlugIsSlug(s);
    FixesSlugs(Slug(s));
    if IsSlug(s) {
      FixesSlugs(s);
    }
  }

  lemma SlugIsSlug(s: string)
    ensures IsSlug(Slug(s))
  {
    var b := Dashed(ToLower(TrimSpace(s)));
    DashedIsDashed(ToLower(TrimSpace(s)));
    TrimmedLeft(b);
    TrimmedRight(TrimDashesLeft(b));
  }

  lemma FixesSlugs(s: string)
    requires IsSlug(s)
    ensures Slug(s) == s
  {
    TrimSlug(s);
    LowerSlug(s);
    DashedSlug(s);
    assert TrimDashesLeft(s) == s && TrimDashesRight(s) == s;
  }

  // Nothing but small letters, digits and dashes comes out, and letters and digits go through.
  lemma SlugAlphabet(s: string)
    ensures forall c | c in Slug(s) :: 'a' <= c <= 'z' || '0' <= c <= '9' || c == '-'
    ensures (forall c | c in s :: 'a' <= c <= 'z' || '0' <= c <= '9') ==> Slug(s) == s
  {
    SlugIsSlug(s);
    if forall c | c in s :: 'a' <= c <= 'z' || '0' <= c <= '9' {
      assert forall i | 0 <= i < |s| :: s[i] in s;
      assert IsSlug(s);
      FixesSlugs(s);
    }
    hide Slug;
  }

  // --- Words -----------------------------------------------------------------------------------------------

  // The stretches of letters and digits, in order.
  function Words(s: string): (ws: seq<string>)
    ensures s != [] && IsSlugChar(s[|s| - 1]) ==> ws != []
  {
    if s == [] then []
    else
      var front, c := s[..|s| - 1], s[|s| - 1];
      var ws := Words(front);
      if !IsSlugChar(c) then ws
      else if front != [] && IsSlugChar(front[|front| - 1]) then ws[..|ws| - 1] + [ws[|ws| - 1] + [c]]
      else ws + [[c]]
  }

  // The words with a dash between any two.
  function Hyphenated(ws: seq<string>): string {
    if ws == [] then [] else if |ws| == 1 then ws[0] else Hyphenated(ws[..|ws| - 1]) + "-" + ws[|ws| - 1]
  }

  lemma LongerWord(ws: seq<string>, c: char)
    requires ws != []
    ensures Hyphenated(ws[..|ws| - 1] + [ws[|ws| - 1] + [c]]) == Hyphenated(ws) + [c]
  {
    var xs := ws[..|ws| - 1] + [ws[|ws| - 1] + [c]];
    assert xs[..|xs| - 1] == ws[..|ws| - 1];
  }

  lemma AnotherWord(ws: seq<string>, w: string)
    ensures Hyphenated(ws + [w]) == if ws == [] then w else Hyphenated(ws) + "-" + w
  {
    assert (ws + [w])[..|ws|] == ws;
  }

  function DashIf(yes: bool): string {
    if yes then "-" else ""
  }

  // A dash for what stands before the words, and one for what stands behind them.
  function Leads(s: string): bool {
    s != [] && !IsSlugChar(s[0])
  }

  function Trails(s: string): bool {
    Words(s) != [] && !IsSlugChar(s[|s| - 1])
  }

  // What the loop has written.
  function Written(s: string): string {
    DashIf(Leads(s)) + Hyphenated(Words(s)) + DashIf(Trails(s))
  }

  lemma SameWord(front: string, c: char)
    requires IsSlugChar(c) && front != [] && IsSlugChar(front[|front| - 1])
    ensures var ws := Words(front + [c]); ws != [] && Hyphenated(ws) == Hyphenated(Words(front)) + [c]
  {
    assert (front + [c])[..|front|] == front;
    LongerWord(Words(front), c);
    hide Hyphenated, IsSlugChar;
  }

  lemma NextWord(front: string, c: char)
    requires IsSlugChar(c) && (front == [] || !IsSlugChar(front[|front| - 1]))
    ensures var ws := Words(front + [c]);
            ws != [] && Hyphenated(ws) == if Words(front) == [] then [c] else Hyphenated(Words(front)) + "-" + [c]
  {
    assert (front + [c])[..|front|] == front;
    AnotherWord(Words(front), [c]);
    hide Hyphenated, IsSlugChar;
  }

  lemma WordsLetter(front: string, c: char)
    requires IsSlugChar(c)
    ensures var ws := Words(front + [c]);
            ws != [] && Hyphenated(ws) == Hyphenated(Words(front)) + DashIf(Trails(front)) + [c]
  {
    var h := Hyphenated(Words(front));
    NoDash(h);
    if front != [] && IsSlugChar(front[|front| - 1]) {
      SameWord(front, c);
    } else {
      NextWord(front, c);
      NoWords();
    }
    hide Hyphenated, IsSlugChar, Words;
  }

  lemma NoWords()
    ensures Hyphenated([]) == [] && Words([]) == []
  {
  }

  lemma WordsOther(front: string, c: char)
    requires !IsSlugChar(c)
    ensures Words(front + [c]) == Words(front)
  {
    assert (front + [c])[..|front|] == front;
  }

  lemma {:induction false} WordsShape(s: string)
    ensures Words(s) == [] <==> forall i | 0 <= i < |s| :: !IsSlugChar(s[i])
    ensures var h := Hyphenated(Words(s));
            && (h != [] <==> Words(s) != []) && (h != [] ==> IsSlugChar(h[0]) && IsSlugChar(h[|h| - 1]))
  {
    NoWords();
    hide Hyphenated, IsSlugChar, Words;
    if s != [] {
      var front, c := s[..|s| - 1], s[|s| - 1];
      WordsShape(front);
      assert s == front + [c];
      if IsSlugChar(c) {
        WordsLetter(front, c);
      } else {
        WordsOther(front, c);
      }
    }
  }

  lemma WrittenLetter(front: string, c: char)
    requires IsSlugChar(c)
    ensures Written(front + [c]) == Written(front) + [c]
  {
    WordsLetter(front, c);
    hide Hyphenated, Words;
    assert Leads(front + [c]) == Leads(front) && !Trails(front + [c]);
    hide DashIf, Leads, Trails;
    var lead, h, trail := DashIf(Leads(front)), Hyphenated(Words(front)), DashIf(Trails(front));
    NoDash(lead + (h + trail + [c]));
    assert lead + (h + trail + [c]) == (lead + h + trail) + [c];
  }

  lemma NoDash(s: string)
    ensures s + DashIf(false) == s
  {
  }

  lemma WrittenEnd(s: string)
    requires s != []
    ensures var w := Written(s); w != [] && (w[|w| - 1] == '-' <==> !IsSlugChar(s[|s| - 1]))
  {
    WordsShape(s);
    var h := Hyphenated(Words(s));
    hide Hyphenated;
    if !IsSlugChar(s[|s| - 1]) && h == [] {
      assert !IsSlugChar(s[0]);
    }
  }

  lemma WrittenOther(front: string, c: char)
    requires !IsSlugChar(c)
    ensures var w := Written(front); Written(front + [c]) == if w != [] && w[|w| - 1] == '-' then w else w + ['-']
  {
    WordsOther(front, c);
    WordsShape(front);
    if front != [] {
      WrittenEnd(front);
    }
    var h := Hyphenated(Words(front));
    hide Hyphenated, Words;
    assert h + "" == h;
  }

  lemma {:induction false} DashedWords(s: string)
    ensures Dashed(s) == Written(s)
  {
    if s != [] {
      var front, c := s[..|s| - 1], s[|s| - 1];
      DashedWords(front);
      assert s == front + [c];
      if IsSlugChar(c) {
        WrittenLetter(front, c);
      } else {
        WrittenOther(front, c);
      }
      hide Written, Words;
    }
  }

  lemma TrimOneLeft(s: string, dash: bool)
    requires s != [] ==> s[0] != '-'
    ensures TrimDashesLeft(DashIf(dash) + s) == s
  {
    if dash {
      assert ("-" + s)[1..] == s;
    } else {
      assert "" + s == s;
    }
  }

  lemma TrimOneRight(s: string, dash: bool)
    requires s != [] ==> s[|s| - 1] != '-'
    ensures TrimDashesRight(s + DashIf(dash)) == s
  {
    if dash {
      var t := s + "-";
      assert t[|t| - 1] == '-' && t[..|t| - 1] == s;
    } else {
      assert s + "" == s;
    }
  }

  // A slug is the lower-case words of the name, with a dash between any two.
  lemma SlugIsTheWords(s: string)
    ensures Slug(s) == Hyphenated(Words(ToLower(TrimSpace(s))))
  {
    var t := ToLower(TrimSpace(s));
    DashedWords(t);
    WordsShape(t);
    var h := Hyphenated(Words(t));
    assert h == [] ==> DashIf(Trails(t)) == "";
    hide Dashed, Words, Hyphenated, ToLower, TrimSpace, DashIf;
    TrimOneLeft(h + DashIf(Trails(t)), Leads(t));
    TrimOneRight(h, Trails(t));
    assert DashIf(Leads(t)) + h + DashIf(Trails(t)) == DashIf(Leads(t)) + (h + DashIf(Trails(t)));
  }

  // --- Identifiers -----------------------------------------------------------------------------------------

  // The i-th identifier that is tried, counted from 1: the base, base-2, base-3 and so on.
  function Candidate(base: string, i: nat): string {
    if i <= 1 then base else base + "-" + Itoa(i)
  }

  const TRIES := 9999

  lemma CandidatesDiffer(base: string, i: nat, j: nat)
    requires 1 <= i < j
    ensures Candidate(base, i) != Candidate(base, j)
  {
    if i > 1 && Candidate(base, i) == Candidate(base, j) {
      assert (base + "-" + Itoa(i))[|base| + 1..] == Itoa(i);
      assert (base + "-" + Itoa(j))[|base| + 1..] == Itoa(j);
      ItoaValue(i);
      ItoaValue(j);
    }
  }

  function Candidates(base: string, n: nat): set<string> {
    if n == 0 then {} else Candidates(base, n - 1) + {Candidate(base, n)}
  }

  lemma CandidatesExactly(base: string, n: nat)
    ensures forall x :: x in Candidates(base, n) <==> exists i: nat | 1 <= i <= n :: x == Candidate(base, i)
  {
    hide Candidate;
    if n > 0 {
      CandidatesExactly(base, n - 1);
    }
  }

  lemma {:induction false} CandidateCount(base: string, n: nat)
    ensures |Candidates(base, n)| == n
  {
    hide Candidate;
    if n > 0 {
      CandidateCount(base, n - 1);
      CandidatesExactly(base, n - 1);
      forall i: nat | 1 <= i < n ensures Candidate(base, i) != Candidate(base, n) {
        CandidatesDiffer(base, i, n);
      }
      assert Candidate(base, n) !in Candidates(base, n - 1);
    }
  }

  lemma {:induction false} SetOfSeqSize(xs: seq<string>)
    ensures |(set x | x in xs)| <= |xs|
  {
    if xs == [] {
      assert (set x | x in xs) == {};
    } else {
      var before := xs[..|xs| - 1];
      SetOfSeqSize(before);
      assert xs == before + [xs[|xs| - 1]];
      assert (set x | x in xs) == (set x | x in before) + {xs[|xs| - 1]};
    }
  }

  // With fewer than 9999 identifiers in use, one of the 9999 that are tried is not.
  lemma SomeCandidateUnused(ids: seq<string>, base: string)
    requires |ids| < TRIES
    ensures exists i: nat | 1 <= i <= TRIES :: Candidate(base, i) !in ids
  {
    CandidateCount(base, TRIES);
    CandidatesExactly(base, TRIES);
    SetOfSeqSize(ids);
    hide Candidate, Candidates;
    var used := set x | x in ids;
    if forall i: nat | 1 <= i <= TRIES :: Candidate(base, i) in ids {
      assert Candidates(base, TRIES) <= used;
      SubsetSize(Candidates(base, TRIES), used);
      assert false;
    }
  }

  lemma {:induction false} SubsetSize(a: set<string>, b: set<string>)
    requires a <= b
    ensures |a| <= |b|
  {
    assert b == a + (b - a);
    assert |b| == |a| + |b - a|;
  }

  function BaseOf(name: string): string {
    var b := TrimDashes(Slug(name));
    if b == "" then "profile" else b
  }

  lemma BaseIsPlain(name: string)
    ensures BaseOf(name) != "" && forall c | c in BaseOf(name) :: !IsSpace(c)
  {
    SlugIsSlug(name);
    var s := Slug(name);
    assert TrimDashesLeft(s) == s && TrimDashesRight(s) == s;
  }

  // Neither the candidates nor the clock give an identifier that is not in use.
  ghost predicate Exhausted(ids: seq<string>, name: string, unixTime: nat) {
    && (forall i: nat | 1 <= i <= TRIES :: Candidate(BaseOf(name), i) in ids)
    && BaseOf(name) + "-" + Itoa(unixTime) in ids
  }

  lemma BaseIsTheSlug(name: string)
    ensures BaseOf(name) == if Slug(name) == "" then "profile" else Slug(name)
  {
    SlugIsSlug(name);
    var s := Slug(name);
    assert TrimDashesLeft(s) == s && TrimDashesRight(s) == s;
  }

  // What is tried is the base alone, and with 2 to 9999 behind it.
  lemma TriedInOrder(base: string, i: nat)
    ensures Candidate(base, 1) == base && (i >= 2 ==> Candidate(base, i) == base + "-" + Itoa(i)) && TRIES == 9999
  {
  }

  // The first of the candidates that is not in use; after 9999 of them the clock decides, unchecked.
  method UniqueProfileID(ids: seq<string>, name: string, unixTime: nat) returns (id: string)
    ensures var base := if Slug(name) == "" then "profile" else Slug(name);
            || (exists i: nat | 1 <= i <= TRIES :: id == Candidate(base, i) && id !in ids
                                                && forall j: nat | 1 <= j < i :: Candidate(base, j) in ids)
            || (id == base + "-" + Itoa(unixTime) && forall i: nat | 1 <= i <= TRIES :: Candidate(base, i) in ids)
    ensures id in ids <==> Exhausted(ids, name, unixTime)
    ensures |ids| < TRIES ==> id !in ids
    ensures id != "" && forall c | c in id :: !IsSpace(c)
  {
    BaseIsPlain(name);
    BaseIsTheSlug(name);
    var slug := Slugify(name);
    var base := TrimDashes(slug);
    if base == "" {
      base := "profile";
    }
    var used: set<string> := {};
    var n := 0;
    while n < |ids|
      invariant 0 <= n <= |ids|
      invariant forall x :: x in used <==> x in ids[..n]
    {
      used := used + {ids[n]};
      n := n + 1;
    }
    assert ids[..n] == ids;
    if |ids| < TRIES {
      SomeCandidateUnused(ids, base);
    }
    assert Candidate(base, 1) == base;
    if base !in used {
      return base;
    }
    var i: nat := 2;
    while i < 10000
      invariant 2 <= i <= 10000
      invariant forall j: nat | 1 <= j < i :: Candidate(base, j) in ids
    {
      var candidate := base + "-" + Itoa(i);
      assert candidate == Candidate(base, i);
      if candidate !in used {
        return candidate;
      }
      i := i + 1;
    }
    id := base + "-" + Itoa(unixTime);
  }
}
