/**
 * `escapeHtml` from _site/utils.js: one global regular-expression replace
 * that swaps each of the eight characters `& < > " ' / \` =` for its entry
 * in `ENTITY_MAP` and copies every other character.
 */
module HtmlEscape {
  import opened Basics

  /** `ENTITY_MAP`: the replacement of each special character. */
  function Entity(c: char): Option<string>
  {
    match c
    case '&' => Some("&amp;")
    case '<' => Some("&lt;")
    case '>' => Some("&gt;")
    case '"' => Some("&quot;")
    case '\'' => Some("&#39;")
    case '/' => Some("&#x2F;")
    case '`' => Some("&#x60;")
    case '=' => Some("&#x3D;")
    case _ => None
  }

  /** The character class `[&<>"'`=\/]` of the replace. */
  predicate IsSpecial(c: char)
  {
    c == '&' || c == '<' || c == '>' || c == '"' || c == '\'' || c == '/' || c == '`' || c == '='
  }

  /** The markup-significant characters an escaped text never contains. */
  predicate IsMarkup(c: char)
  {
    c == '<' || c == '>' || c == '"' || c == '\'' || c == '/' || c == '`' || c == '='
  }

  /** What one character becomes: its entity if it has one, else itself. */
  function EscapeChar(c: char): (r: string)
    ensures IsSpecial(c) <==> Entity(c).Some?
    ensures IsSpecial(c) ==> r == Entity(c).value && |r| >= 4 && r[0] == '&' && r[|r| - 1] == ';'
    ensures !IsSpecial(c) ==> r == [c]
    ensures forall i :: 0 <= i < |r| ==> !IsMarkup(r[i])
  {
    match Entity(c)
    case Some(e) => e
    case None => [c]
  }

  /**
   * `escapeHtml(unsafe)`. The output contains none of `< > " ' / \` =`: no
   * entity contains them, and every other character is copied.
   */
  function EscapeHtml(unsafe: string): (r: string)
    ensures forall i :: 0 <= i < |r| ==> !IsMarkup(r[i])
  {
    if unsafe == [] then []
    else
      var head := EscapeChar(unsafe[0]);
      var tail := EscapeHtml(unsafe[1..]);
      assert forall i :: |head| <= i < |head + tail| ==> (head + tail)[i] == tail[i - |head|];
      head + tail
  }

  /** The text contains none of the eight special characters. */
  predicate NoSpecial(s: string)
  {
    forall i :: 0 <= i < |s| ==> !IsSpecial(s[i])
  }

  /** The replacement is global and per character, so it distributes over concatenation. */
  lemma {:induction false} EscapeAppend(a: string, b: string)
    ensures EscapeHtml(a + b) == EscapeHtml(a) + EscapeHtml(b)
  {
    if a == [] {
      assert a + b == b;
    } else {
      assert (a + b)[0] == a[0] && (a + b)[1..] == a[1..] + b;
      EscapeAppend(a[1..], b);
    }
  }

  /** Each character is replaced in place: by its table entity, or by itself. */
  lemma {:induction false} EscapeAt(s: string, i: nat)
    requires i < |s|
    ensures EscapeHtml(s) == EscapeHtml(s[..i]) + EscapeChar(s[i]) + EscapeHtml(s[i + 1..])
  {
    var a, c, b := s[..i], s[i], s[i + 1..];
    assert s == (a + [c]) + b;
    EscapeAppend(a + [c], b);
    EscapeAppend(a, [c]);
    assert [c][1..] == [];
    assert EscapeHtml([c]) == EscapeChar(c);
  }

  /** Escaping never shortens, and keeps the length exactly when nothing is special. */
  lemma {:induction false} EscapeLength(s: string)
    ensures |EscapeHtml(s)| >= |s|
    ensures |EscapeHtml(s)| == |s| <==> NoSpecial(s)
  {
    if s != [] {
      EscapeLength(s[1..]);
      if NoSpecial(s[1..]) && !IsSpecial(s[0]) {
        assert NoSpecial(s) by {
          forall i | 0 <= i < |s| ensures !IsSpecial(s[i]) {
            if i > 0 { assert s[i] == s[1..][i - 1]; }
          }
        }
      }
      if NoSpecial(s) {
        assert NoSpecial(s[1..]) by {
          forall i | 0 <= i < |s| - 1 ensures !IsSpecial(s[1..][i]) {
            assert s[1..][i] == s[i + 1];
          }
        }
      }
    }
  }

  /** Text without special characters passes through unchanged, and only such text does. */
  lemma EscapeFixedPoint(s: string)
    ensures EscapeHtml(s) == s <==> NoSpecial(s)
  {
    EscapeLength(s);
    if NoSpecial(s) {
      EscapeUnchanged(s);
    }
  }

  lemma {:induction false} EscapeUnchanged(s: string)
    requires NoSpecial(s)
    ensures EscapeHtml(s) == s
  {
    if s != [] {
      assert !IsSpecial(s[0]);
      assert NoSpecial(s[1..]) by {
        forall i | 0 <= i < |s| - 1 ensures !IsSpecial(s[1..][i]) {
          assert s[1..][i] == s[i + 1];
        }
      }
      EscapeUnchanged(s[1..]);
    }
  }

  /**
   * Escaping twice equals escaping once exactly when the text has no special
   * character: every entity starts with `&`, which is itself escaped again.
   */
  lemma EscapeIdempotentIff(s: string)
    ensures EscapeHtml(EscapeHtml(s)) == EscapeHtml(s) <==> NoSpecial(s)
  {
    EscapeFixedPoint(s);
    EscapeFixedPoint(EscapeHtml(s));
    if !NoSpecial(s) {
      var i :| 0 <= i < |s| && IsSpecial(s[i]);
      EscapeAt(s, i);
      var before := EscapeHtml(s[..i]);
      assert EscapeHtml(s)[|before|] == '&';
      assert !NoSpecial(EscapeHtml(s));
    }
  }
}
