/** Build identifiers: every maximal run of characters outside `[A-Za-z0-9_-]` becomes one
    `-`, dashes are stripped from both ends, and an identifier left empty is replaced
    by a freshly generated UUID, which is passed in here. */
module SafeId {
  import opened Wrappers

  /** Characters of the class `[a-zA-Z0-9_-]`. */
  predicate Allowed(c: char) {
    'a' <= c <= 'z' || 'A' <= c <= 'Z' || '0' <= c <= '9' || c == '_' || c == '-'
  }

  /** Allowed characters other than the dash: the ones stripping never removes. */
  predicate WordChar(c: char) {
    Allowed(c) && c != '-'
  }

  predicate HexDigit(c: char) {
    '0' <= c <= '9' || 'a' <= c <= 'f'
  }

  /** The text of a version-4 UUID, as Python prints it: 36 characters, lower-case
      hexadecimal digits in groups of 8, 4, 4, 4 and 12 separated by dashes. */
  predicate UuidText(u: string) {
    |u| == 36 &&
    (forall i :: 0 <= i < 36 ==> if i in {8, 13, 18, 23} then u[i] == '-' else HexDigit(u[i])) &&
    u[14] == '4' && u[19] in {'8', '9', 'a', 'b'}
  }

  /** Every character allowed, and no dash at either end. */
  predicate Clean(s: string) {
    (forall i :: 0 <= i < |s| ==> Allowed(s[i])) && (s != [] ==> s[0] != '-' && s[|s| - 1] != '-')
  }

  /** The word characters of a string, in order. */
  function WordChars(s: string): string {
    if s == [] then [] else (if WordChar(s[0]) then [s[0]] else []) + WordChars(s[1..])
  }

  /** The rest of a string after the run of disallowed characters at its start. */
  function SkipRun(s: string): (r: string)
    ensures |r| <= |s|
    ensures r == [] || Allowed(r[0])
  {
    if s != [] && !Allowed(s[0]) then SkipRun(s[1..]) else s
  }

  /** `re.sub(r"[^a-zA-Z0-9_-]+", "-", s)`: never longer than its input, and empty
      exactly when the input is. */
  function ReplaceRuns(s: string): (r: string)
    ensures |r| <= |s|
    ensures r == [] <==> s == []
    decreases |s|
  {
    if s == [] then []
    else if Allowed(s[0]) then [s[0]] + ReplaceRuns(s[1..])
    else "-" + ReplaceRuns(SkipRun(s[1..]))
  }

  /** `s.lstrip("-")`. */
  function TrimStart(s: string): (r: string)
    ensures r == [] || r[0] != '-'
  {
    if s != [] && s[0] == '-' then TrimStart(s[1..]) else s
  }

  /** `s.rstrip("-")`. */
  function TrimEnd(s: string): (r: string)
    ensures r == [] || r[|r| - 1] != '-'
  {
    if s != [] && s[|s| - 1] == '-' then TrimEnd(s[..|s| - 1]) else s
  }

  /** `s.strip("-")`: no dash at either end, and the same letters, digits and
      underscores as `s`. */
  function Strip(s: string): (r: string)
    ensures r == [] || (r[0] != '-' && r[|r| - 1] != '-')
    ensures WordChars(r) == WordChars(s)
  {
    var t := TrimStart(s);
    TrimEndKeepsChars(t);
    TrimStartWordChars(s);
    TrimEndWordChars(t);
    TrimEnd(t)
  }

  /** The sanitised text before the fallback applies: clean, with the input's letters,
      digits and underscores in their order, and empty exactly when the input has none. */
  function Cleaned(raw: string): (r: string)
    ensures Clean(r)
    ensures WordChars(r) == WordChars(raw)
    ensures r == [] <==> WordChars(raw) == []
  {
    var r := Strip(ReplaceRuns(raw));
    CleanedIsClean(raw);
    CleanedKeepsWordChars(raw);
    CleanNonEmpty(r);
    r
  }

  /** `_safe_id(raw)`, with the UUID it would generate given as `fallback`. */
  function Sanitize(raw: string, fallback: string): (r: string)
    requires UuidText(fallback)
    ensures r != []
    ensures Clean(r)
    ensures Cleaned(raw) != [] ==> r == Cleaned(raw)
    ensures Cleaned(raw) == [] ==> r == fallback
  {
    var cleaned := Cleaned(raw);
    if cleaned != [] then cleaned else fallback
  }

  // ---------------------------------------------------------------------------
  // Properties.

  lemma {:induction false} WordCharsConcat(a: string, b: string)
    ensures WordChars(a + b) == WordChars(a) + WordChars(b)
  {
    if a == [] {
      assert a + b == b;
    } else {
      var head: string := if WordChar(a[0]) then [a[0]] else [];
      assert (a + b)[0] == a[0];
      assert (a + b)[1..] == a[1..] + b;
      WordCharsConcat(a[1..], b);
      calc {
        WordChars(a + b);
        head + WordChars(a[1..] + b);
        head + (WordChars(a[1..]) + WordChars(b));
        (head + WordChars(a[1..])) + WordChars(b);
        WordChars(a) + WordChars(b);
      }
    }
  }

  /** Skipping a run drops no word character. */
  lemma {:induction false} SkipRunWordChars(s: string)
    ensures WordChars(SkipRun(s)) == WordChars(s)
  {
    if s != [] && !Allowed(s[0]) {
      SkipRunWordChars(s[1..]);
    }
  }

  /** Replacing runs yields only allowed characters. */
  lemma {:induction false} ReplaceRunsAllowedChars(s: string)
    ensures forall i :: 0 <= i < |ReplaceRuns(s)| ==> Allowed(ReplaceRuns(s)[i])
    decreases |s|
  {
    if s != [] {
      if Allowed(s[0]) {
        ReplaceRunsAllowedChars(s[1..]);
      } else {
        ReplaceRunsAllowedChars(SkipRun(s[1..]));
      }
    }
  }

  /** Replacing runs drops no word character and adds none. */
  lemma {:induction false} ReplaceRunsWordChars(s: string)
    ensures WordChars(ReplaceRuns(s)) == WordChars(s)
    decreases |s|
  {
    if s != [] {
      if Allowed(s[0]) {
        ReplaceRunsWordChars(s[1..]);
        WordCharsConcat([s[0]], ReplaceRuns(s[1..]));
      } else {
        ReplaceRunsWordChars(SkipRun(s[1..]));
        SkipRunWordChars(s[1..]);
        WordCharsConcat("-", ReplaceRuns(SkipRun(s[1..])));
      }
    }
  }

  /** Stripping dashes drops no word character. */
  lemma {:induction false} TrimStartWordChars(s: string)
    ensures WordChars(TrimStart(s)) == WordChars(s)
  {
    if s != [] && s[0] == '-' {
      TrimStartWordChars(s[1..]);
    }
  }

  lemma {:induction false} TrimEndWordChars(s: string)
    ensures WordChars(TrimEnd(s)) == WordChars(s)
  {
    if s != [] && s[|s| - 1] == '-' {
      TrimEndWordChars(s[..|s| - 1]);
      assert s == s[..|s| - 1] + [s[|s| - 1]];
      WordCharsConcat(s[..|s| - 1], [s[|s| - 1]]);
    }
  }

  /** Sanitising keeps exactly the letters, digits and underscores of the input, in order. */
  lemma CleanedKeepsWordChars(raw: string)
    ensures WordChars(Strip(ReplaceRuns(raw))) == WordChars(raw)
  {
    ReplaceRunsWordChars(raw);
    TrimStartWordChars(ReplaceRuns(raw));
    TrimEndWordChars(TrimStart(ReplaceRuns(raw)));
  }

  /** Removing characters from the end never brings back a removed character. */
  lemma {:induction false} TrimEndKeepsChars(s: string)
    ensures |TrimEnd(s)| <= |s| && TrimEnd(s) == s[..|TrimEnd(s)|]
  {
    if s != [] && s[|s| - 1] == '-' {
      TrimEndKeepsChars(s[..|s| - 1]);
    }
  }

  lemma {:induction false} TrimStartKeepsChars(s: string)
    ensures |TrimStart(s)| <= |s| && TrimStart(s) == s[|s| - |TrimStart(s)|..]
  {
    if s != [] && s[0] == '-' {
      TrimStartKeepsChars(s[1..]);
    }
  }

  /** Replacing runs and then stripping leaves only allowed characters and no dash at either end. */
  lemma CleanedIsClean(raw: string)
    ensures Clean(Strip(ReplaceRuns(raw)))
  {
    var replaced := ReplaceRuns(raw);
    ReplaceRunsAllowedChars(raw);
    var trimmed := TrimStart(replaced);
    TrimStartKeepsChars(replaced);
    TrimEndKeepsChars(trimmed);
    var r := TrimEnd(trimmed);
    assert forall i :: 0 <= i < |trimmed| ==> trimmed[i] == replaced[|replaced| - |trimmed| + i];
    assert forall i :: 0 <= i < |r| ==> r[i] == trimmed[i];
  }

  /** A clean string is non-empty exactly when it has a word character. */
  lemma {:induction false} CleanNonEmpty(s: string)
    requires Clean(s)
    ensures s != [] <==> WordChars(s) != []
  {
  }

  /** The UUID fallback is taken exactly when the input has no letter, digit or
      underscore; otherwise the identifier is the sanitised input. */
  lemma FallbackIff(raw: string, fallback: string)
    requires UuidText(fallback)
    ensures WordChars(raw) == [] ==> Sanitize(raw, fallback) == fallback
    ensures WordChars(raw) != [] ==> Sanitize(raw, fallback) == Cleaned(raw) && Cleaned(raw) != []
  {
  }

  /** The class `[^a-zA-Z0-9_-]+` has no match at the start of `b`. */
  predicate RunBoundary(b: string) {
    b == [] || Allowed(b[0])
  }

  /** Skipping a whole run of disallowed characters lands on what follows it. */
  lemma {:induction false} SkipRunWhole(run: string, b: string)
    requires forall i :: 0 <= i < |run| ==> !Allowed(run[i])
    requires RunBoundary(b)
    ensures SkipRun(run + b) == b
  {
    if run == [] {
      assert run + b == b;
    } else {
      assert (run + b)[1..] == run[1..] + b;
      SkipRunWhole(run[1..], b);
    }
  }

  /** Skipping stops inside `x` when `x` has an allowed character. */
  lemma {:induction false} SkipRunStops(x: string, y: string, k: nat)
    requires k < |x| && Allowed(x[k])
    ensures SkipRun(x + y) == SkipRun(x) + y
    ensures |SkipRun(x)| > 0 && SkipRun(x)[|SkipRun(x)| - 1] == x[|x| - 1]
  {
    if !Allowed(x[0]) {
      assert (x + y)[1..] == x[1..] + y;
      SkipRunStops(x[1..], y, k - 1);
    }
  }

  /** Each maximal run of disallowed characters becomes exactly one dash: cutting the
      input at a maximal run cuts the output at one dash. */
  lemma {:induction false} ReplaceRunsSplit(a: string, run: string, b: string)
    requires run != [] && forall i :: 0 <= i < |run| ==> !Allowed(run[i])
    requires a == [] || Allowed(a[|a| - 1])
    requires RunBoundary(b)
    ensures ReplaceRuns(a + (run + b)) == ReplaceRuns(a) + ("-" + ReplaceRuns(b))
    decreases |a|
  {
    var tail := run + b;
    var out := "-" + ReplaceRuns(b);
    if a == [] {
      assert a + tail == tail;
      assert tail == [run[0]] + (run[1..] + b);
      SkipRunWhole(run[1..], b);
    } else if Allowed(a[0]) {
      calc {
        ReplaceRuns(a + tail);
        { AfterAllowed(a, tail); }
        [a[0]] + ReplaceRuns(a[1..] + tail);
        { ReplaceRunsSplit(a[1..], run, b); }
        [a[0]] + (ReplaceRuns(a[1..]) + out);
        { Assoc([a[0]], ReplaceRuns(a[1..]), out); }
        ([a[0]] + ReplaceRuns(a[1..])) + out;
        ReplaceRuns(a) + out;
      }
    } else {
      SkipRunStops(a[1..], tail, |a| - 2);
      var s := SkipRun(a[1..]);
      AfterDisallowed(a, s, tail);
      calc {
        ReplaceRuns(a + tail);
        "-" + ReplaceRuns(s + tail);
        { ReplaceRunsSplit(s, run, b); }
        "-" + (ReplaceRuns(s) + out);
        { Assoc("-", ReplaceRuns(s), out); }
        ("-" + ReplaceRuns(s)) + out;
        ReplaceRuns(a) + out;
      }
    }
  }

  lemma AfterAllowed(a: string, tail: string)
    requires a != [] && Allowed(a[0])
    ensures ReplaceRuns(a + tail) == [a[0]] + ReplaceRuns(a[1..] + tail)
  {
    assert (a + tail)[1..] == a[1..] + tail;
  }

  lemma AfterDisallowed(a: string, s: string, tail: string)
    requires a != [] && !Allowed(a[0])
    requires SkipRun(a[1..] + tail) == SkipRun(a[1..]) + tail && s == SkipRun(a[1..])
    ensures ReplaceRuns(a + tail) == "-" + ReplaceRuns(s + tail)
    ensures ReplaceRuns(a) == "-" + ReplaceRuns(s)
  {
    var x := a + tail;
    assert x != [] && x[0] == a[0] && x[1..] == a[1..] + tail;
    assert ReplaceRuns(x) == "-" + ReplaceRuns(SkipRun(x[1..]));
    assert ReplaceRuns(a) == "-" + ReplaceRuns(SkipRun(a[1..]));
  }

  /** Replacing runs changes nothing in a string of allowed characters. */
  lemma {:induction false} ReplaceRunsAllowed(s: string)
    requires forall i :: 0 <= i < |s| ==> Allowed(s[i])
    ensures ReplaceRuns(s) == s
  {
    if s != [] {
      ReplaceRunsAllowed(s[1..]);
    }
  }

  /** Sanitising a clean string changes nothing. */
  lemma CleanIsFixed(s: string)
    requires Clean(s)
    ensures Cleaned(s) == s
  {
    ReplaceRunsAllowed(s);
  }

  /** Sanitising is idempotent: an identifier it produced, whether from the input or
      from the UUID fallback, comes back unchanged, whatever UUID the second call draws. */
  lemma SanitizeIdempotent(raw: string, fallback: string, fallback2: string)
    requires UuidText(fallback) && UuidText(fallback2)
    ensures Sanitize(Sanitize(raw, fallback), fallback2) == Sanitize(raw, fallback)
  {
    var id := Sanitize(raw, fallback);
    CleanIsFixed(id);
  }
}
