/**
 * The XSS policy of XMLWikiPrinter: which attribute name/value pairs may reach
 * the XML writer. The policy is a pure predicate over the name and the value
 * with its surrounding whitespace removed the way Java's String.trim() does it.
 */
module AttributePolicy {

  /** String.trim() strips every character whose code is at most U+0020. */
  predicate IsTrimmable(c: char) {
    c <= ' '
  }

  predicate AllTrimmable(s: string) {
    forall i :: 0 <= i < |s| ==> IsTrimmable(s[i])
  }

  /** `s` does not begin or end with a character that trim() would strip. */
  predicate IsTrimmed(s: string) {
    s == [] || (!IsTrimmable(s[0]) && !IsTrimmable(s[|s| - 1]))
  }

  /** Drops the leading trimmable characters. */
  function TrimLeading(s: string): (r: string)
    ensures |r| <= |s|
    ensures r == [] || !IsTrimmable(r[0])
  {
    if |s| > 0 && IsTrimmable(s[0]) then TrimLeading(s[1..]) else s
  }

  /** Drops the trailing trimmable characters. */
  function TrimTrailing(s: string): (r: string)
    ensures |r| <= |s|
    ensures r == [] || !IsTrimmable(r[|r| - 1])
  {
    if |s| > 0 && IsTrimmable(s[|s| - 1]) then TrimTrailing(s[..|s| - 1]) else s
  }

  /** TrimLeading removes only trimmable characters, and only from the front. */
  lemma {:induction false} TrimLeadingRemovesOnlyWhitespace(s: string)
    ensures TrimLeading(s) == s[|s| - |TrimLeading(s)|..]
    ensures forall i :: 0 <= i < |s| - |TrimLeading(s)| ==> IsTrimmable(s[i])
  {
    if |s| > 0 && IsTrimmable(s[0]) {
      TrimLeadingRemovesOnlyWhitespace(s[1..]);
      forall i | 1 <= i < |s| - |TrimLeading(s)| ensures IsTrimmable(s[i]) {
        assert s[i] == s[1..][i - 1];
      }
    }
  }

  /** TrimTrailing removes only trimmable characters, and only from the back. */
  lemma {:induction false} TrimTrailingRemovesOnlyWhitespace(s: string)
    ensures TrimTrailing(s) == s[..|TrimTrailing(s)|]
    ensures forall i :: |TrimTrailing(s)| <= i < |s| ==> IsTrimmable(s[i])
  {
    if |s| > 0 && IsTrimmable(s[|s| - 1]) {
      TrimTrailingRemovesOnlyWhitespace(s[..|s| - 1]);
      forall i | |TrimTrailing(s)| <= i < |s| - 1 ensures IsTrimmable(s[i]) {
        assert s[i] == s[..|s| - 1][i];
      }
    }
  }

  /** Java's String.trim(). */
  function Trim(s: string): (r: string)
    ensures |r| <= |s|
    ensures IsTrimmed(r)
  {
    var leading := TrimLeading(s);
    TrimTrailingRemovesOnlyWhitespace(leading);
    TrimTrailing(leading)
  }

  /** Names admitted whatever their value (ATTRIBUTES_WHITELIST). */
  function AttributesWhitelist(): seq<string> {
    ["alt", "class", "height", "id", "name", "rel", "scope", "style", "target", "title", "width"]
  }

  /** Names admitted only when their value looks like a safe URL (VULNERABLE_ATTRIBUTES). */
  function VulnerableAttributes(): seq<string> { ["href", "src"] }

  /** The case-sensitive prefixes a trimmed URL value must start with. */
  function SafeUrlPrefixes(): seq<string> { ["/", "http", "www", "mailto", "#", "file"] }

  predicate HasSafeUrlPrefix(v: string) {
    exists p :: p in SafeUrlPrefixes() && p <= v
  }

  /** The source tests the six prefixes one after another; that is the same as HasSafeUrlPrefix. */
  lemma SafeUrlPrefixTests(v: string)
    ensures HasSafeUrlPrefix(v) <==>
      ("/" <= v || "http" <= v || "www" <= v || "mailto" <= v || "#" <= v || "file" <= v)
  {
    assert SafeUrlPrefixes()[0] == "/" && SafeUrlPrefixes()[1] == "http" && SafeUrlPrefixes()[2] == "www";
    assert SafeUrlPrefixes()[3] == "mailto" && SafeUrlPrefixes()[4] == "#" && SafeUrlPrefixes()[5] == "file";
    if HasSafeUrlPrefix(v) {
      var p :| p in SafeUrlPrefixes() && p <= v;
      var k :| 0 <= k < |SafeUrlPrefixes()| && SafeUrlPrefixes()[k] == p;
      assert k == 0 || k == 1 || k == 2 || k == 3 || k == 4 || k == 5;
    } else {
      forall k | 0 <= k < |SafeUrlPrefixes()| ensures !(SafeUrlPrefixes()[k] <= v) {
        assert SafeUrlPrefixes()[k] in SafeUrlPrefixes();
      }
    }
  }

  /**
   * isAttributeClean: a whitelisted name is clean for every value, a vulnerable
   * name is clean exactly when its trimmed value starts with a safe prefix, and
   * every other name is rejected.
   */
  function IsAttributeClean(key: string, value: string): (clean: bool)
    ensures key in AttributesWhitelist() ==> clean
    ensures key in VulnerableAttributes() ==> (clean <==> HasSafeUrlPrefix(Trim(value)))
    ensures key !in AttributesWhitelist() && key !in VulnerableAttributes() ==> !clean
  {
    var v := Trim(value);
    if key in AttributesWhitelist() then
      true
    else if key in VulnerableAttributes() then
      SafeUrlPrefixTests(v);
      "/" <= v || "http" <= v || "www" <= v || "mailto" <= v || "#" <= v || "file" <= v
    else
      false
  }

  /** Trimming an already trimmed string changes nothing. */
  lemma TrimIdempotent(s: string)
    ensures Trim(Trim(s)) == Trim(s)
  {
    var r := Trim(s);
    assert TrimLeading(r) == r;
    assert TrimTrailing(r) == r;
  }

  /** Leading trimmable characters never reach the result of TrimLeading. */
  lemma {:induction false} TrimLeadingSkips(w: string, s: string)
    requires AllTrimmable(w)
    ensures TrimLeading(w + s) == TrimLeading(s)
  {
    if w != [] {
      var ws := w + s;
      assert ws[0] == w[0] && IsTrimmable(w[0]);
      assert TrimLeading(ws) == TrimLeading(ws[1..]);
      assert ws[1..] == w[1..] + s;
      assert AllTrimmable(w[1..]) by {
        forall i | 0 <= i < |w| - 1 ensures IsTrimmable(w[1..][i]) {
          assert w[1..][i] == w[i + 1];
        }
      }
      TrimLeadingSkips(w[1..], s);
    } else {
      assert w + s == s;
    }
  }

  /** Trailing trimmable characters never reach the result of TrimTrailing. */
  lemma {:induction false} TrimTrailingSkips(s: string, w: string)
    requires AllTrimmable(w)
    ensures TrimTrailing(s + w) == TrimTrailing(s)
  {
    if w != [] {
      var n := |w| - 1;
      var sw := s + w;
      assert sw[|sw| - 1] == w[n] && IsTrimmable(w[n]);
      assert TrimTrailing(sw) == TrimTrailing(sw[..|sw| - 1]);
      assert sw[..|sw| - 1] == s + w[..n];
      assert AllTrimmable(w[..n]) by {
        forall i | 0 <= i < n ensures IsTrimmable(w[..n][i]) {
          assert w[..n][i] == w[i];
        }
      }
      TrimTrailingSkips(s, w[..n]);
    } else {
      assert s + w == s;
    }
  }

  /** TrimLeading of a concatenation only reaches into `t` when `s` is all whitespace. */
  lemma {:induction false} TrimLeadingAppend(s: string, t: string)
    ensures TrimLeading(s + t) == if AllTrimmable(s) then TrimLeading(t) else TrimLeading(s) + t
  {
    if s != [] {
      assert (s + t)[0] == s[0];
      if IsTrimmable(s[0]) {
        assert (s + t)[1..] == s[1..] + t;
        TrimLeadingAppend(s[1..], t);
        assert AllTrimmable(s) <==> AllTrimmable(s[1..]) by {
          if AllTrimmable(s[1..]) {
            forall i | 0 <= i < |s| ensures IsTrimmable(s[i]) {
              if i > 0 { assert s[i] == s[1..][i - 1]; }
            }
          }
        }
      } else {
        assert !AllTrimmable(s);
      }
    } else {
      assert s + t == t;
    }
  }

  /** Whitespace around a value is removed by trim(), whatever the value is. */
  lemma TrimIgnoresPadding(w1: string, v: string, w2: string)
    requires AllTrimmable(w1) && AllTrimmable(w2)
    ensures Trim(w1 + v + w2) == Trim(v)
  {
    assert w1 + v + w2 == w1 + (v + w2);
    TrimLeadingSkips(w1, v + w2);
    TrimLeadingAppend(v, w2);
    if AllTrimmable(v) {
      TrimLeadingSkips(w2, []);
      TrimLeadingSkips(v, []);
      assert w2 + [] == w2 && v + [] == v;
    } else {
      TrimTrailingSkips(TrimLeading(v), w2);
    }
  }

  /** Leading whitespace is removed by trim(), whatever follows it. */
  lemma TrimIgnoresLeading(w: string, v: string)
    requires AllTrimmable(w)
    ensures Trim(w + v) == Trim(v)
  {
    TrimLeadingSkips(w, v);
  }

  /** trim() returns exactly the core of a padded value whose ends are not whitespace. */
  lemma TrimOfPadded(w1: string, v: string, w2: string)
    requires AllTrimmable(w1) && AllTrimmable(w2) && IsTrimmed(v)
    ensures Trim(w1 + v + w2) == v
  {
    TrimIgnoresPadding(w1, v, w2);
    assert TrimLeading(v) == v;
    assert TrimTrailing(v) == v;
  }

  /** The verdict depends only on the trimmed value. */
  lemma CleanIgnoresTrim(key: string, value: string)
    ensures IsAttributeClean(key, value) == IsAttributeClean(key, Trim(value))
  {
    TrimIdempotent(value);
  }

  /** Surrounding whitespace never changes the verdict. */
  lemma CleanIgnoresPadding(key: string, w1: string, value: string, w2: string)
    requires AllTrimmable(w1) && AllTrimmable(w2)
    ensures IsAttributeClean(key, w1 + value + w2) == IsAttributeClean(key, value)
  {
    TrimIgnoresPadding(w1, value, w2);
  }

  /** The first characters the six safe prefixes start with. */
  predicate StartsLikeSafeUrl(c: char) {
    c == '/' || c == 'h' || c == 'w' || c == 'm' || c == '#' || c == 'f'
  }

  /** No safe prefix begins or ends with a character trim() would strip. */
  lemma SafeUrlPrefixesShape()
    ensures forall p :: p in SafeUrlPrefixes() ==>
      p != [] && StartsLikeSafeUrl(p[0]) && !IsTrimmable(p[|p| - 1])
  {
    forall p | p in SafeUrlPrefixes()
      ensures p != [] && StartsLikeSafeUrl(p[0]) && !IsTrimmable(p[|p| - 1])
    {
      var k :| 0 <= k < 6 && SafeUrlPrefixes()[k] == p;
      assert k == 0 || k == 1 || k == 2 || k == 3 || k == 4 || k == 5;
    }
  }

  /** After trim(), a string that starts with a kept character still starts with it. */
  lemma TrimKeepsFirst(s: string)
    requires s != [] && !IsTrimmable(s[0])
    ensures Trim(s) != [] && Trim(s)[0] == s[0]
  {
    assert TrimLeading(s) == s;
    TrimTrailingRemovesOnlyWhitespace(s);
  }

  /**
   * A vulnerable attribute whose value, after any leading whitespace, starts with
   * a character no safe prefix starts with is rejected: `javascript:`, `data:`
   * and an upper-case `HTTP:` all fall here.
   */
  lemma UnsafeSchemeRejected(key: string, w: string, value: string)
    requires key in VulnerableAttributes()
    requires AllTrimmable(w)
    requires value != [] && !IsTrimmable(value[0]) && !StartsLikeSafeUrl(value[0])
    ensures !IsAttributeClean(key, w + value)
  {
    var t := Trim(w + value);
    assert t != [] && t[0] == value[0] by {
      TrimIgnoresLeading(w, value);
      TrimKeepsFirst(value);
    }
    assert !HasSafeUrlPrefix(t) by {
      SafeUrlPrefixesShape();
      assert forall p :: p in SafeUrlPrefixes() && p <= t ==> p[0] == t[0];
    }
  }

  /**
   * A vulnerable attribute whose value, after any leading whitespace, starts with
   * one of the safe prefixes is admitted, whatever follows it.
   */
  lemma SafeUrlAccepted(key: string, w: string, p: string, rest: string)
    requires key in VulnerableAttributes()
    requires AllTrimmable(w) && p in SafeUrlPrefixes()
    ensures IsAttributeClean(key, w + (p + rest))
  {
    SafeUrlPrefixesShape();
    SafePrefixSurvivesTrim(p, rest);
    TrimIgnoresLeading(w, p + rest);
    assert HasSafeUrlPrefix(Trim(w + (p + rest)));
  }

  /** A prefix whose ends trim() would keep is still a prefix of the trimmed string. */
  lemma SafePrefixSurvivesTrim(p: string, rest: string)
    requires p != [] && !IsTrimmable(p[0]) && !IsTrimmable(p[|p| - 1])
    ensures p <= Trim(p + rest)
  {
    var value := p + rest;
    assert value[0] == p[0];
    assert TrimLeading(value) == value;
    TrimTrailingRemovesOnlyWhitespace(value);
    var r := TrimTrailing(value);
    assert value[|p| - 1] == p[|p| - 1];
    assert |r| >= |p|;
    assert r[..|p|] == value[..|p|] == p;
  }

  /** A script URL is rejected even behind a leading space. */
  lemma ScriptUrlExample()
    ensures !IsAttributeClean("href", " javascript:x")
  {
    assert " " + "javascript:x" == " javascript:x";
    UnsafeSchemeRejected("href", " ", "javascript:x");
  }

  /** The prefix test is case-sensitive: an upper-case scheme is rejected. */
  lemma UpperCaseSchemeExample()
    ensures !IsAttributeClean("src", "HTTP://x")
  {
    assert "" + "HTTP://x" == "HTTP://x";
    UnsafeSchemeRejected("src", "", "HTTP://x");
  }

  /** A URL behind leading spaces is admitted. */
  lemma PaddedUrlExample()
    ensures IsAttributeClean("href", "  http://x")
  {
    assert "  " + ("http" + "://x") == "  http://x";
    assert SafeUrlPrefixes()[1] == "http";
    SafeUrlAccepted("href", "  ", "http", "://x");
  }
}
