/** The URL slug an article is saved with (strapifront/src/components/ArticleForm.tsx):
    a slug typed by the user is cleaned, an empty slug field is replaced by one derived
    from the title. Either way the slug keeps only the characters the form advertises:
    lower-case ASCII letters, digits, `-`, `_`, `.` and `~`. */
module Slug {
  import opened JsStrings

  /** A character of the class `[a-z0-9-_.~]`. */
  predicate IsSlugChar(c: char) {
    ('a' <= c <= 'z') || ('0' <= c <= '9') || c == '-' || c == '_' || c == '.' || c == '~'
  }

  predicate IsSlug(s: string) {
    forall i :: 0 <= i < |s| ==> IsSlugChar(s[i])
  }

  predicate NoWhiteSpace(s: string) {
    forall i :: 0 <= i < |s| ==> !IsWhiteSpace(s[i])
  }

  /** `s.replace(/\s+/g, '-')`: every maximal run of white space becomes one `-`. */
  function DashWhiteSpace(s: string): (r: string)
    ensures NoWhiteSpace(r)
  {
    DashRuns(s, false)
  }

  /** The dash replacement of `s` when the text before it ended inside a white-space run
      (`inRun`), so that a run continuing into `s` adds no second `-`. */
  function DashRuns(s: string, inRun: bool): (r: string)
    ensures NoWhiteSpace(r)
    ensures |r| <= |s|
  {
    if s == [] then []
    else if IsWhiteSpace(s[0]) then (if inRun then [] else "-") + DashRuns(s[1..], true)
    else [s[0]] + DashRuns(s[1..], false)
  }

  /** `s.replace(/[^a-z0-9-_.~]/g, '')`: every character outside the slug alphabet is deleted. */
  function KeepSlugChars(s: string): (r: string)
    ensures IsSlug(r)
    ensures |r| <= |s|
  {
    if s == [] then []
    else (if IsSlugChar(s[0]) then [s[0]] else []) + KeepSlugChars(s[1..])
  }

  /** The cleaning applied to a slug the user typed: the result is a slug no longer than
      the field, and a field that already is a slug passes unchanged. */
  function CleanSlug(s: string): (r: string)
    ensures IsSlug(r) && |r| <= |s|
    ensures IsSlug(s) ==> r == s
  {
    assert IsSlug(s) ==> KeepSlugChars(DashWhiteSpace(s)) == s by {
      if IsSlug(s) {
        SlugPassesCleaning(s);
      }
    }
    KeepSlugChars(DashWhiteSpace(s))
  }

  /** The slug derived from the title when the slug field is empty: a slug, and a title
      that already is one is its own slug. */
  function DeriveSlug(title: string): (r: string)
    ensures IsSlug(r)
    ensures IsSlug(title) ==> r == title
  {
    assert IsSlug(title) ==> ToLowerCase(title) == title by {
      if IsSlug(title) {
        LowerSlugIdentity(title);
      }
    }
    CleanSlug(ToLowerCase(title))
  }

  /** The slug sent with the article, from the slug field and the title: any slug produced
      is made of slug characters only, hence has no white space. */
  function NormalizeSlug(field: string, title: string): (r: string)
    ensures IsSlug(r)
    ensures NoWhiteSpace(r)
  {
    if field == "" then DeriveSlug(title) else CleanSlug(field)
  }

  lemma SlugCharNotWhite(c: char)
    requires IsSlugChar(c)
    ensures !IsWhiteSpace(c)
  {
  }

  /** The cleaning leaves a slug unchanged. */
  lemma SlugPassesCleaning(s: string)
    requires IsSlug(s)
    ensures KeepSlugChars(DashWhiteSpace(s)) == s
  {
    forall i | 0 <= i < |s| ensures !IsWhiteSpace(s[i]) {
      SlugCharNotWhite(s[i]);
    }
    DashWhiteSpaceIdentity(s);
    KeepSlugCharsIdentity(s);
  }

  /** Lowering leaves a slug unchanged. */
  lemma {:induction false} LowerSlugIdentity(s: string)
    requires IsSlug(s)
    ensures ToLowerCase(s) == s
  {
    if s != [] {
      LowerSlugIdentity(s[1..]);
      assert s == [s[0]] + s[1..];
    }
  }

  lemma {:induction false} DashRunsIdentity(s: string, inRun: bool)
    requires NoWhiteSpace(s)
    ensures DashRuns(s, inRun) == s
  {
    if s != [] {
      DashRunsIdentity(s[1..], false);
    }
  }

  lemma DashWhiteSpaceIdentity(s: string)
    requires NoWhiteSpace(s)
    ensures DashWhiteSpace(s) == s
  {
    DashRunsIdentity(s, false);
  }

  lemma {:induction false} KeepSlugCharsIdentity(s: string)
    requires IsSlug(s)
    ensures KeepSlugChars(s) == s
  {
    if s != [] {
      KeepSlugCharsIdentity(s[1..]);
    }
  }

  /** Cleaning a cleaned slug changes nothing. */
  lemma CleanSlugIdempotent(s: string)
    ensures CleanSlug(CleanSlug(s)) == CleanSlug(s)
  {
    var c := CleanSlug(s);
    DashWhiteSpaceIdentity(c);
    KeepSlugCharsIdentity(c);
  }

  /** A non-empty slug typed back into the slug field comes out unchanged. */
  lemma NormalizeSlugStable(field: string, title: string, title': string)
    requires NormalizeSlug(field, title) != ""
    ensures NormalizeSlug(NormalizeSlug(field, title), title') == NormalizeSlug(field, title)
  {
    var r := NormalizeSlug(field, title);
    DashWhiteSpaceIdentity(r);
    KeepSlugCharsIdentity(r);
  }

  /** Whether the text `a`, preceded by text that ended in a run (`inRun`), ends in a run. */
  function EndsInRun(a: string, inRun: bool): bool {
    if a == [] then inRun else IsWhiteSpace(a[|a| - 1])
  }

  /** The dash replacement of a concatenation is that of each part, the second part
      continuing any run the first part ends in. */
  lemma {:induction false} DashRunsAppend(a: string, x: string, inRun: bool)
    ensures DashRuns(a + x, inRun) == DashRuns(a, inRun) + DashRuns(x, EndsInRun(a, inRun))
  {
    if a == [] {
      assert a + x == x;
    } else {
      assert (a + x)[0] == a[0] && (a + x)[1..] == a[1..] + x;
      DashRunsAppend(a[1..], x, IsWhiteSpace(a[0]));
      assert a[1..] != [] ==> a[1..][|a[1..]| - 1] == a[|a| - 1];
    }
  }

  /** Text that does not start with white space is replaced the same whether or not a run precedes it. */
  lemma DashRunsNonWhiteStart(x: string, inRun: bool)
    requires x == [] || !IsWhiteSpace(x[0])
    ensures DashRuns(x, inRun) == DashWhiteSpace(x)
  {
  }

  /** A non-empty run of white space alone becomes one `-`. */
  lemma {:induction false} DashRunsOfWhite(w: string, inRun: bool)
    requires AllWhiteSpace(w)
    ensures DashRuns(w, inRun) == if w == [] || inRun then [] else "-"
  {
    if w != [] {
      DashRunsOfWhite(w[1..], true);
    }
  }

  /** Each maximal run of white space becomes exactly one `-`. */
  lemma DashWhiteSpaceRun(a: string, w: string, b: string)
    requires a == [] || !IsWhiteSpace(a[|a| - 1])
    requires w != [] && AllWhiteSpace(w)
    requires b == [] || !IsWhiteSpace(b[0])
    ensures DashWhiteSpace(a + w + b) == DashWhiteSpace(a) + "-" + DashWhiteSpace(b)
  {
    DashRunsAppend(a + w, b, false);
    DashRunsAppend(a, w, false);
    DashRunsOfWhite(w, false);
    assert EndsInRun(a + w, false) by { assert (a + w)[|a + w| - 1] == w[|w| - 1]; }
    DashRunsNonWhiteStart(b, true);
  }

  /** A character that is not white space passes through the dash replacement on its own. */
  lemma DashAroundNonWhite(x: string, c: char, y: string)
    requires !IsWhiteSpace(c)
    ensures DashWhiteSpace(x + [c] + y) == DashWhiteSpace(x) + [c] + DashWhiteSpace(y)
  {
    DashRunsAppend(x + [c], y, false);
    DashRunsAppend(x, [c], false);
    assert (x + [c])[|x + [c]| - 1] == c;
    DashRunsNonWhiteStart([c], EndsInRun(x, false));
    assert DashRuns([c], false) == [c] by { assert [c][1..] == []; }
  }

  lemma {:induction false} KeepSlugCharsAppend(a: string, b: string)
    ensures KeepSlugChars(a + b) == KeepSlugChars(a) + KeepSlugChars(b)
  {
    if a == [] {
      assert a + b == b;
    } else {
      assert (a + b)[0] == a[0] && (a + b)[1..] == a[1..] + b;
      KeepSlugCharsAppend(a[1..], b);
    }
  }

  /** A character that is neither white space nor a slug character is deleted without a trace. */
  lemma CleanSlugDeletes(a: string, c: char, b: string)
    requires !IsSlugChar(c) && !IsWhiteSpace(c)
    ensures CleanSlug(a + [c] + b) == CleanSlug(a) + CleanSlug(b)
  {
    DashAroundNonWhite(a, c, b);
    KeepSlugCharsAppend(DashWhiteSpace(a) + [c], DashWhiteSpace(b));
    KeepSlugCharsAppend(DashWhiteSpace(a), [c]);
  }

  /** In the title, a character that lowers to itself and is neither white space nor a
      slug character leaves no trace in the derived slug. */
  lemma DerivedSlugDeletes(a: string, c: char, b: string)
    requires !IsSlugChar(c) && !IsWhiteSpace(c) && LowerChar(c) == [c]
    ensures DeriveSlug(a + [c] + b) == DeriveSlug(a) + DeriveSlug(b)
  {
    ToLowerCaseAppend(a + [c], b);
    ToLowerCaseAppend(a, [c]);
    assert ToLowerCase([c]) == [c];
    CleanSlugDeletes(ToLowerCase(a), c, ToLowerCase(b));
  }

  /** A slug character of a typed slug stays in place; the text around it is cleaned
      independently. */
  lemma CleanSlugKeeps(x: string, c: char, y: string)
    requires IsSlugChar(c)
    ensures CleanSlug(x + [c] + y) == CleanSlug(x) + [c] + CleanSlug(y)
  {
    SlugCharNotWhite(c);
    DashAroundNonWhite(x, c, y);
    KeepSlugCharsAppend(DashWhiteSpace(x) + [c], DashWhiteSpace(y));
    KeepSlugCharsAppend(DashWhiteSpace(x), [c]);
  }

  /** In the title, a slug character stays in place in the derived slug, which around it
      is the slugs of the text before and after. */
  lemma DerivedSlugKeeps(a: string, c: char, b: string)
    requires IsSlugChar(c)
    ensures DeriveSlug(a + [c] + b) == DeriveSlug(a) + [c] + DeriveSlug(b)
  {
    ToLowerCaseAppend(a + [c], b);
    ToLowerCaseAppend(a, [c]);
    assert ToLowerCase([c]) == [c];
    assert ToLowerCase(a + [c] + b) == ToLowerCase(a) + [c] + ToLowerCase(b);
    CleanSlugKeeps(ToLowerCase(a), c, ToLowerCase(b));
  }

  /** In a slug the user typed, a capital letter is deleted, not lowered. */
  lemma TypedSlugDropsCapital(a: string, c: char, b: string, title: string)
    requires 'A' <= c <= 'Z'
    ensures NormalizeSlug(a + [c] + b, title) == CleanSlug(a) + CleanSlug(b)
  {
    assert (a + [c] + b) != "" by { assert |a + [c] + b| > 0; }
    CleanSlugDeletes(a, c, b);
  }

  /** A typed slug of capital letters only cleans to the empty slug, which is sent as it
      is: the title is consulted only when the field itself is empty. */
  lemma {:induction false} TypedCapitalsGiveEmptySlug(field: string, title: string)
    requires field != [] && forall i :: 0 <= i < |field| ==> 'A' <= field[i] <= 'Z'
    ensures NormalizeSlug(field, title) == ""
  {
    assert field == [] + [field[0]] + field[1..];
    TypedSlugDropsCapital([], field[0], field[1..], title);
    if |field| > 1 {
      TypedCapitalsGiveEmptySlug(field[1..], title);
    }
  }

  /** In a slug derived from the title, a capital letter is lowered and kept. */
  lemma DerivedSlugLowersCapital(a: string, c: char, b: string)
    requires 'A' <= c <= 'Z'
    ensures DeriveSlug(a + [c] + b) == DeriveSlug(a) + [(c as int + 32) as char] + DeriveSlug(b)
  {
    var lc := (c as int + 32) as char;
    ToLowerCaseAppend(a + [c], b);
    ToLowerCaseAppend(a, [c]);
    assert ToLowerCase([c]) == [lc] by { assert [c][1..] == []; }
    DashAroundNonWhite(ToLowerCase(a), lc, ToLowerCase(b));
    var da, db := DashWhiteSpace(ToLowerCase(a)), DashWhiteSpace(ToLowerCase(b));
    KeepSlugCharsAppend(da + [lc], db);
    KeepSlugCharsAppend(da, [lc]);
    assert KeepSlugChars([lc]) == [lc] by { assert [lc][1..] == []; }
  }

  lemma {:induction false} ToLowerCaseKeepsWhiteSpace(w: string)
    requires AllWhiteSpace(w)
    ensures ToLowerCase(w) == w
  {
    if w != [] {
      ToLowerCaseKeepsWhiteSpace(w[1..]);
    }
  }

  /** Lowering a character that is not white space gives at least one character and no white space. */
  lemma LowerCharNotWhite(c: char)
    requires !IsWhiteSpace(c)
    ensures LowerChar(c) != [] && NoWhiteSpace(LowerChar(c))
  {
  }

  /** Lowering keeps a string from ending in white space. */
  lemma LowerEndNotWhite(a: string)
    requires a != [] && !IsWhiteSpace(a[|a| - 1])
    ensures ToLowerCase(a) != [] && !IsWhiteSpace(ToLowerCase(a)[|ToLowerCase(a)| - 1])
  {
    var n := |a| - 1;
    assert a == a[..n] + [a[n]];
    ToLowerCaseAppend(a[..n], [a[n]]);
    assert ToLowerCase([a[n]]) == LowerChar(a[n]) by { assert [a[n]][1..] == []; }
    LowerCharNotWhite(a[n]);
  }

  /** Lowering keeps a string from starting with white space. */
  lemma LowerStartNotWhite(b: string)
    requires b != [] && !IsWhiteSpace(b[0])
    ensures ToLowerCase(b) != [] && !IsWhiteSpace(ToLowerCase(b)[0])
  {
    LowerCharNotWhite(b[0]);
  }

  /** In a title, each maximal run of white space becomes exactly one `-` of the derived slug. */
  lemma DerivedSlugDashesRun(a: string, w: string, b: string)
    requires a == [] || !IsWhiteSpace(a[|a| - 1])
    requires w != [] && AllWhiteSpace(w)
    requires b == [] || !IsWhiteSpace(b[0])
    ensures DeriveSlug(a + w + b) == DeriveSlug(a) + "-" + DeriveSlug(b)
  {
    ToLowerCaseAppend(a + w, b);
    ToLowerCaseAppend(a, w);
    ToLowerCaseKeepsWhiteSpace(w);
    if a != [] { LowerEndNotWhite(a); }
    if b != [] { LowerStartNotWhite(b); }
    var la, lb := ToLowerCase(a), ToLowerCase(b);
    DashWhiteSpaceRun(la, w, lb);
    var da, db := DashWhiteSpace(la), DashWhiteSpace(lb);
    KeepSlugCharsAppend(da + "-", db);
    KeepSlugCharsAppend(da, "-");
    assert KeepSlugChars("-") == "-" by { assert "-"[1..] == []; }
  }
}
