/**
 * The contact form's email check, `/^[^\s@]+@[^\s@]+\.[^\s@]+$/.test(email)`
 * (app.js, `validateForm` and `validateField`).
 *
 * `EmailTest` decides the pattern with a finite automaton equivalent to it,
 * reading one character at a time. Two declarative readings
 * of the pattern are proved equivalent to it: the pattern's own language
 * (three non-empty runs of "plain" characters joined by `@` and `.`), and
 * the shape `L@R` with a dot strictly inside the domain part `R`.
 */
module EmailPattern {
  import opened Text

  /** A character of the class `[^\s@]`. */
  predicate PlainChar(c: char) {
    !IsSpace(c) && c != '@'
  }

  /** Every character of `s` belongs to `[^\s@]`. */
  predicate Plain(s: string) {
    forall k :: 0 <= k < |s| ==> PlainChar(s[k])
  }

  /** Where the automaton stands after a prefix of the input. */
  datatype State =
    | Start     // nothing read yet
    | Local     // inside `[^\s@]+` before the `@`
    | AtSign    // just read the `@`
    | Domain    // inside the domain, no dot usable as the `\.` yet
    | Dot       // just read a dot that can serve as the `\.`
    | TopLevel  // inside the final `[^\s@]+`: accepting
    | Reject    // no match is possible any more

  function Step(st: State, c: char): State {
    if IsSpace(c) then Reject
    else match st
      case Start => if c == '@' then Reject else Local
      case Local => if c == '@' then AtSign else Local
      case AtSign => if c == '@' then Reject else Domain
      case Domain => if c == '@' then Reject else if c == '.' then Dot else Domain
      case Dot => if c == '@' then Reject else TopLevel
      case TopLevel => if c == '@' then Reject else TopLevel
      case Reject => Reject
  }

  function Run(st: State, s: string): State
    decreases s
  {
    if s == [] then st else Run(Step(st, s[0]), s[1..])
  }

  /** `emailRegex.test(s)`. */
  function EmailTest(s: string): bool {
    Run(Start, s) == TopLevel
  }

  /** `s` has a dot at an index that is neither its first nor its last. */
  predicate HasInnerDot(s: string) {
    exists i :: 0 < i < |s| - 1 && s[i] == '.'
  }

  /** `s` splits at index `p` into `L@R` with `L` non-empty, `L` and `R` plain and a dot inside `R`. */
  predicate SplitsAt(s: string, p: int) {
    && 0 <= p < |s|
    && s[p] == '@'
    && Plain(s[..p])
    && Plain(s[p + 1..])
    && HasInnerDot(s[p + 1..])
  }

  /** The shape `L@R`: `L` non-empty, neither part with white space or `@`, a dot strictly inside `R`. */
  predicate EmailShape(s: string) {
    exists p :: 0 < p < |s| && SplitsAt(s, p)
  }

  /** `s` is `A@B.C` with `@` at index `p`, the dot at index `q`, and `A`, `B`, `C` non-empty runs of `[^\s@]`. */
  predicate PatternAt(s: string, p: int, q: int) {
    && 0 < p && p + 1 < q && q + 1 < |s|
    && s[p] == '@' && s[q] == '.'
    && Plain(s[..p]) && Plain(s[p + 1..q]) && Plain(s[q + 1..])
  }

  /** The language of `^[^\s@]+@[^\s@]+\.[^\s@]+$`. */
  predicate InPattern(s: string) {
    exists p, q :: 0 <= p < q < |s| && PatternAt(s, p, q)
  }

  // ---------------------------------------------------------------------
  // What each state accepts, from the accepting end of the pattern back.
  // ---------------------------------------------------------------------

  lemma {:induction false} RunReject(s: string)
    ensures Run(Reject, s) == Reject
  {
    if s != [] {
      RunReject(s[1..]);
    }
  }

  lemma {:induction false} RunTopLevel(s: string)
    ensures Run(TopLevel, s) == TopLevel <==> Plain(s)
  {
    if s != [] {
      if PlainChar(s[0]) {
        RunTopLevel(s[1..]);
        assert Plain(s) <==> Plain(s[1..]) by {
          if Plain(s[1..]) {
            forall k | 0 <= k < |s| ensures PlainChar(s[k]) {
              if k > 0 { assert s[k] == s[1..][k - 1]; }
            }
          }
        }
      } else {
        RunReject(s[1..]);
      }
    }
  }

  lemma RunDot(s: string)
    ensures Run(Dot, s) == TopLevel <==> |s| >= 1 && Plain(s)
  {
    if s != [] {
      if PlainChar(s[0]) {
        RunTopLevel(s[1..]);
        assert Plain(s) <==> Plain(s[1..]) by {
          if Plain(s[1..]) {
            forall k | 0 <= k < |s| ensures PlainChar(s[k]) {
              if k > 0 { assert s[k] == s[1..][k - 1]; }
            }
          }
        }
      } else {
        RunReject(s[1..]);
      }
    }
  }

  /** `s` has a dot with at least one character after it. */
  predicate DotBeforeLast(s: string) {
    exists i :: 0 <= i < |s| - 1 && s[i] == '.'
  }

  lemma PlainTail(s: string)
    requires |s| > 0
    ensures Plain(s) <==> PlainChar(s[0]) && Plain(s[1..])
  {
    if PlainChar(s[0]) && Plain(s[1..]) {
      forall k | 0 <= k < |s| ensures PlainChar(s[k]) {
        if k > 0 { assert s[k] == s[1..][k - 1]; }
      }
    }
  }

  lemma {:induction false} RunDomain(s: string)
    ensures Run(Domain, s) == TopLevel <==> Plain(s) && DotBeforeLast(s)
  {
    if s != [] {
      PlainTail(s);
      if !PlainChar(s[0]) {
        RunReject(s[1..]);
      } else if s[0] == '.' {
        RunDot(s[1..]);
        if |s| >= 2 {
          assert s[0] == '.';
        }
      } else {
        RunDomain(s[1..]);
        assert DotBeforeLast(s) <==> DotBeforeLast(s[1..]) by {
          if DotBeforeLast(s) {
            var i :| 0 <= i < |s| - 1 && s[i] == '.';
            assert s[1..][i - 1] == '.';
          }
          if DotBeforeLast(s[1..]) {
            var i :| 0 <= i < |s[1..]| - 1 && s[1..][i] == '.';
            assert s[i + 1] == '.';
          }
        }
      }
    }
  }

  lemma RunAtSign(s: string)
    ensures Run(AtSign, s) == TopLevel <==> Plain(s) && HasInnerDot(s)
  {
    if s != [] {
      PlainTail(s);
      if !PlainChar(s[0]) {
        RunReject(s[1..]);
      } else {
        RunDomain(s[1..]);
        assert HasInnerDot(s) <==> DotBeforeLast(s[1..]) by {
          if HasInnerDot(s) {
            var i :| 0 < i < |s| - 1 && s[i] == '.';
            assert s[1..][i - 1] == '.';
          }
          if DotBeforeLast(s[1..]) {
            var i :| 0 <= i < |s[1..]| - 1 && s[1..][i] == '.';
            assert s[i + 1] == '.';
          }
        }
      }
    }
  }

  /** `s` splits as `L@R` with `L` possibly empty (what remains once the first local character is read). */
  predicate LocalRest(s: string) {
    exists p :: 0 <= p < |s| && SplitsAt(s, p)
  }

  /** Dropping a leading plain character moves the split point one place left. */
  lemma SplitShift(s: string, p: int)
    requires |s| > 0 && PlainChar(s[0]) && 0 < p < |s|
    ensures SplitsAt(s, p) <==> SplitsAt(s[1..], p - 1)
  {
    var t := s[1..];
    assert t[p - 1] == s[p];
    assert t[p - 1 + 1..] == s[p + 1..];
    assert s[..p][0] == s[0];
    assert s[..p][1..] == t[..p - 1];
    PlainTail(s[..p]);
  }

  lemma LocalRestShift(s: string)
    requires |s| > 0 && PlainChar(s[0])
    ensures LocalRest(s) <==> LocalRest(s[1..])
  {
    var t := s[1..];
    if LocalRest(s) {
      var p :| 0 <= p < |s| && SplitsAt(s, p);
      SplitShift(s, p);
    }
    if LocalRest(t) {
      var p :| 0 <= p < |t| && SplitsAt(t, p);
      SplitShift(s, p + 1);
    }
  }

  lemma {:induction false} RunLocal(s: string)
    ensures Run(Local, s) == TopLevel <==> LocalRest(s)
  {
    if s == [] {
    } else if IsSpace(s[0]) {
      RunReject(s[1..]);
      assert !LocalRest(s);
    } else if s[0] == '@' {
      RunAtSign(s[1..]);
      if LocalRest(s) {
        var p :| 0 <= p < |s| && SplitsAt(s, p);
        assert p == 0;
      }
      if Plain(s[1..]) && HasInnerDot(s[1..]) {
        assert SplitsAt(s, 0);
      }
    } else {
      RunLocal(s[1..]);
      LocalRestShift(s);
    }
  }

  /** The automaton accepts exactly the strings of the shape `L@R`. */
  lemma EmailTestIffShape(s: string)
    ensures EmailTest(s) <==> EmailShape(s)
  {
    if s == [] {
    } else if !PlainChar(s[0]) {
      RunReject(s[1..]);
      assert !EmailShape(s);
    } else {
      RunLocal(s[1..]);
      var t := s[1..];
      if EmailShape(s) {
        var p :| 0 < p < |s| && SplitsAt(s, p);
        SplitShift(s, p);
      }
      if LocalRest(t) {
        var p :| 0 <= p < |t| && SplitsAt(t, p);
        SplitShift(s, p + 1);
      }
    }
  }

  /** The shape `L@R` is the language of the pattern: the backtracking of `[^\s@]+\.[^\s@]+` finds any inner dot of `R`. */
  lemma ShapeIffPattern(s: string)
    ensures EmailShape(s) <==> InPattern(s)
  {
    if EmailShape(s) {
      var p :| 0 < p < |s| && SplitsAt(s, p);
      var r := s[p + 1..];
      var i :| 0 < i < |r| - 1 && r[i] == '.';
      var q := p + 1 + i;
      assert s[p + 1..q] == r[..i];
      assert s[q + 1..] == r[i + 1..];
      assert PatternAt(s, p, q);
    }
    if InPattern(s) {
      var p, q :| 0 <= p < q < |s| && PatternAt(s, p, q);
      var r := s[p + 1..];
      assert r[q - p - 1] == '.';
      assert Plain(r) by {
        forall k | 0 <= k < |r| ensures PlainChar(r[k]) {
          if k < q - p - 1 {
            assert r[k] == s[p + 1..q][k];
          } else if k > q - p - 1 {
            assert r[k] == s[q + 1..][k - (q - p)];
          }
        }
      }
      assert SplitsAt(s, p);
    }
  }

  /** `emailRegex.test(s)` holds exactly for the strings of the pattern's language. */
  lemma EmailTestIffPattern(s: string)
    ensures EmailTest(s) <==> InPattern(s)
  {
    EmailTestIffShape(s);
    ShapeIffPattern(s);
  }

  /** An accepted address contains exactly one `@` and no white space at all. */
  lemma AcceptedHasOneAt(s: string)
    requires EmailTest(s)
    ensures exists p :: 0 < p < |s| - 1 && s[p] == '@' && forall j :: 0 <= j < |s| && s[j] == '@' ==> j == p
    ensures forall j :: 0 <= j < |s| ==> !IsSpace(s[j])
  {
    EmailTestIffShape(s);
    var p :| 0 < p < |s| && SplitsAt(s, p);
    forall j | 0 <= j < |s| ensures PlainChar(s[j]) || j == p {
      if j < p { assert s[j] == s[..p][j]; }
      if j > p { assert s[j] == s[p + 1..][j - p - 1]; }
    }
  }
}
