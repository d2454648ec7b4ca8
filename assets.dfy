/**
 * The build-information text embedded in the binary (`buildinfo.txt`) and the two parsers
 * over it. The patterns are Go RE2 patterns with leftmost-first semantics in which `.` is
 * any rune except '\n':
 *   BuildVersion  uses  `BuildVersion=(.+?)\n`  (first match only) and
 *   BuildInfoMap  uses  `(.+?)=(.+?)\n`          (all non-overlapping matches).
 * Each pattern is modelled by a matcher anchored at the start of a text and a scan that
 * tries successive start positions, which is what the regexp engine does.
 */
module Assets {
  import opened Wrappers

  const DefaultBuildVer := "Latest Build 2024"
  const VersionKey := "BuildVersion="

  /** Index of the first '\n' of `s`, if any. */
  function LineEnd(s: string): (r: Option<nat>)
    ensures r.Some? ==> r.value < |s| && s[r.value] == '\n' && '\n' !in s[..r.value]
    ensures r.None? ==> '\n' !in s
  {
    if s == [] then None
    else if s[0] == '\n' then Some(0)
    else match LineEnd(s[1..])
      case None => None
      case Some(k) =>
        assert s[..k + 1] == [s[0]] + s[1..][..k];
        Some(k + 1)
  }

  // ---------------------------------------------------------------- BuildVersion

  /** `BuildVersion=(.+?)\n` anchored at the start of `s`: the captured group. */
  function VersionMatch(s: string): Option<string>
  {
    if |s| >= |VersionKey| && s[..|VersionKey|] == VersionKey then
      match LineEnd(s[|VersionKey|..])
      case Some(q) => if q >= 1 then Some(s[|VersionKey|..|VersionKey| + q]) else None
      case None => None
    else None
  }

  /** The leftmost match of the pattern in `s` (regexp.FindStringSubmatch). */
  function FindVersion(s: string): Option<string>
    decreases |s|
  {
    if s == [] then None
    else match VersionMatch(s)
      case Some(v) => Some(v)
      case None => FindVersion(s[1..])
  }

  /** assets.BuildVersion over the embedded text `info`. */
  function BuildVersion(info: string): (v: string)
    ensures |v| >= 1 && '\n' !in v
  {
    FindVersionSound(info);
    match FindVersion(info)
    case Some(v) => v
    case None => DefaultBuildVer
  }

  /**
   * Reference meaning of a match: at offset `i` of `s` stand "BuildVersion=", then the
   * non-empty, newline-free `v`, then '\n'.
   */
  ghost predicate VersionAt(s: string, i: nat, v: string)
  {
    && |v| >= 1 && '\n' !in v
    && i + |VersionKey| + |v| < |s|
    && s[i..i + |VersionKey|] == VersionKey
    && s[i + |VersionKey|..i + |VersionKey| + |v|] == v
    && s[i + |VersionKey| + |v|] == '\n'
  }

  ghost predicate NoVersionBefore(s: string, i: nat)
  {
    forall j: nat, w :: j < i ==> !VersionAt(s, j, w)
  }

  lemma {:induction false} VersionMatchMeaning(s: string, v: string)
    ensures VersionMatch(s) == Some(v) <==> VersionAt(s, 0, v)
  {
    var n := |VersionKey|;
    if VersionAt(s, 0, v) {
      var rest := s[n..];
      assert rest[|v|] == '\n';
      assert rest[..|v|] == v;
      var q := LineEnd(rest);
    }
  }

  lemma {:induction false} VersionAtShift(s: string, j: nat, w: string)
    requires |s| > 0
    ensures VersionAt(s, j + 1, w) <==> VersionAt(s[1..], j, w)
  {
    var n := |VersionKey|;
    var t := s[1..];
    if j + 1 + n + |w| < |s| {
      assert forall k :: 0 <= k < |t| ==> t[k] == s[k + 1];
      assert t[j..j + n] == s[j + 1..j + 1 + n];
      assert t[j + n..j + n + |w|] == s[j + 1 + n..j + 1 + n + |w|];
      assert t[j + n + |w|] == s[j + 1 + n + |w|];
    }
  }

  /**
   * BuildVersion's scan finds the leftmost offset at which the pattern matches, and only
   * returns nothing when the pattern matches nowhere.
   */
  lemma {:induction false} FindVersionSound(s: string)
    ensures FindVersion(s).Some? ==>
      exists i: nat :: VersionAt(s, i, FindVersion(s).value) && NoVersionBefore(s, i)
    ensures FindVersion(s).None? ==> forall i: nat, w :: !VersionAt(s, i, w)
    decreases |s|
  {
    if s == [] {
    } else {
      match VersionMatch(s)
      case Some(v) =>
        VersionMatchMeaning(s, v);
        assert VersionAt(s, 0, v) && NoVersionBefore(s, 0);
      case None =>
        FindVersionSound(s[1..]);
        forall w ensures !VersionAt(s, 0, w) { VersionMatchMeaning(s, w); }
        forall j: nat, w ensures VersionAt(s, j + 1, w) <==> VersionAt(s[1..], j, w) {
          VersionAtShift(s, j, w);
        }
        if FindVersion(s[1..]).Some? {
          var v := FindVersion(s[1..]).value;
          var i: nat :| VersionAt(s[1..], i, v) && NoVersionBefore(s[1..], i);
          assert VersionAt(s, i + 1, v);
          forall j: nat, w | j < i + 1 ensures !VersionAt(s, j, w) {
            if j > 0 { assert !VersionAt(s[1..], j - 1, w); }
          }
        } else {
          forall j: nat, w ensures !VersionAt(s, j, w) {
            if j > 0 { assert !VersionAt(s[1..], j - 1, w); }
          }
        }
    }
  }

  /** The text the pattern captures at an offset is determined by the offset. */
  lemma {:induction false} VersionAtUnique(s: string, i: nat, v: string, w: string)
    requires VersionAt(s, i, v) && VersionAt(s, i, w)
    ensures v == w
  {
  }

  /** When "BuildVersion=<v>\n" stands at offset `i` and nowhere earlier, the version is `v`. */
  lemma {:induction false} BuildVersionFinds(s: string, i: nat, v: string)
    requires VersionAt(s, i, v) && NoVersionBefore(s, i)
    ensures BuildVersion(s) == v
  {
    FindVersionSound(s);
    var found := FindVersion(s).value;
    var k: nat :| VersionAt(s, k, found) && NoVersionBefore(s, k);
    VersionAtUnique(s, i, v, found);
  }

  /** With no "BuildVersion=<v>\n" anywhere, the default version is reported. */
  lemma {:induction false} BuildVersionDefault(s: string)
    requires forall i: nat, w :: !VersionAt(s, i, w)
    ensures BuildVersion(s) == DefaultBuildVer
  {
    FindVersionSound(s);
  }

  // ---------------------------------------------------------------- BuildInfoMap

  type Entry = (string, string)

  /** The smallest `p` with `from <= p` and `p + 1 < q` at which `s` holds '='. */
  function FirstEq(s: string, q: nat, from: nat): (r: Option<nat>)
    requires q <= |s|
    ensures r.Some? ==> from <= r.value && r.value + 1 < q && s[r.value] == '='
    ensures r.Some? ==> forall p :: from <= p < r.value ==> s[p] != '='
    ensures r.None? ==> forall p :: from <= p && p + 1 < q ==> s[p] != '='
    decreases q - from
  {
    if from + 1 >= q then None
    else if s[from] == '=' then Some(from)
    else FirstEq(s, q, from + 1)
  }

  /**
   * `(.+?)=(.+?)\n` anchored at the start of `s`: the key, the value and the length of the
   * match. Both groups stay inside the first line; the lazy key group stops at the first
   * '=' after the first rune that still leaves a non-empty value.
   */
  function InfoMatch(s: string): Option<(string, string, nat)>
  {
    match LineEnd(s)
    case None => None
    case Some(q) =>
      match FirstEq(s, q, 1)
      case None => None
      case Some(p) => Some((s[..p], s[p + 1..q], q + 1))
  }

  /** All successive non-overlapping matches (regexp.FindAllStringSubmatch(s, -1)). */
  function FindAllInfo(s: string): seq<Entry>
    decreases |s|
  {
    if s == [] then []
    else match InfoMatch(s)
      case Some((k, v, n)) => [(k, v)] + FindAllInfo(s[n..])
      case None => FindAllInfo(s[1..])
  }

  /** The map the loop of BuildInfoMap builds: entries in order, a later key overwriting. */
  function MapOf(es: seq<Entry>): map<string, string>
  {
    if es == [] then map[] else MapOf(es[..|es| - 1])[es[|es| - 1].0 := es[|es| - 1].1]
  }

  /** What BuildInfoMap returns: nothing (Go's nil) when no match, the map otherwise. */
  function InfoMap(info: string): Option<map<string, string>>
  {
    var es := FindAllInfo(info);
    if |es| > 0 then Some(MapOf(es)) else None
  }

  /** assets.BuildInfoMap: the `for range` over the matches fills the map in place. */
  method BuildInfoMap(info: string) returns (m: Option<map<string, string>>)
    ensures m == InfoMap(info)
  {
    var matches := FindAllInfo(info);
    if |matches| > 0 {
      var acc: map<string, string> := map[];
      for i := 0 to |matches|
        invariant acc == MapOf(matches[..i])
      {
        assert matches[..i + 1][..i] == matches[..i];
        acc := acc[matches[i].0 := matches[i].1];
      }
      assert matches[..|matches|] == matches;
      m := Some(acc);
    } else {
      m := None;
    }
  }

  // The line rule. A '\n'-terminated line yields an entry exactly when it reads
  // key "=" value with both parts non-empty and no '=' in the key after its first rune;
  // any other line, and a last line with no '\n', yields nothing.

  ghost predicate EntryLine(line: string, k: string, v: string)
  {
    line == k + "=" + v && |k| >= 1 && |v| >= 1 && '=' !in k[1..]
  }

  /** The entry of one line (without its '\n'). */
  function ParseLine(line: string): Option<Entry>
  {
    match FirstEq(line, |line|, 1)
    case None => None
    case Some(p) => Some((line[..p], line[p + 1..]))
  }

  /** The entries of the '\n'-terminated lines of `s`, in order. */
  function LineRule(s: string): seq<Entry>
    decreases |s|
  {
    match LineEnd(s)
    case None => []
    case Some(q) =>
      (match ParseLine(s[..q]) case Some(e) => [e] case None => []) + LineRule(s[q + 1..])
  }

  lemma {:induction false} ParseLineMeaning(line: string, k: string, v: string)
    ensures ParseLine(line) == Some((k, v)) <==> EntryLine(line, k, v)
  {
    if EntryLine(line, k, v) {
      assert line[|k|] == '=';
      forall p | 1 <= p < |k| ensures line[p] != '=' {
        assert line[p] == k[1..][p - 1];
      }
      assert line[..|k|] == k;
      assert line[|k| + 1..] == v;
    }
    if ParseLine(line) == Some((k, v)) {
      var p := FirstEq(line, |line|, 1).value;
      assert line == line[..p] + "=" + line[p + 1..];
      forall i | 0 <= i < |k[1..]| ensures k[1..][i] != '=' {
        assert k[1..][i] == line[i + 1];
      }
    }
  }

  lemma {:induction false} ParseLineNone(line: string)
    requires ParseLine(line).None?
    ensures forall k, v :: !EntryLine(line, k, v)
  {
    forall k, v ensures !EntryLine(line, k, v) { ParseLineMeaning(line, k, v); }
  }

  /** FirstEq reads nothing at or beyond its bound. */
  lemma {:induction false} FirstEqPrefix(s: string, q: nat, from: nat)
    requires q <= |s|
    ensures FirstEq(s[..q], q, from) == FirstEq(s, q, from)
    decreases q - from
  {
    if from + 1 < q {
      FirstEqPrefix(s, q, from + 1);
    }
  }

  /** The first '\n' of a suffix that starts inside the first line. */
  lemma {:induction false} LineEndSuffix(s: string, q: nat, j: nat)
    requires LineEnd(s) == Some(q) && j <= q
    ensures LineEnd(s[j..]) == Some(q - j)
  {
    var t := s[j..];
    forall i | 0 <= i < q - j ensures t[i] != '\n' { assert t[i] == s[..q][i + j]; }
    assert t[q - j] == '\n';
  }

  /** Within a line that holds no match from its start, no later offset holds one either. */
  lemma {:induction false} SkipLine(s: string, q: nat, j: nat)
    requires LineEnd(s) == Some(q) && InfoMatch(s).None? && j <= q
    ensures FindAllInfo(s[j..]) == FindAllInfo(s[q + 1..])
    decreases q - j
  {
    var t := s[j..];
    LineEndSuffix(s, q, j);
    assert t[1..] == s[j + 1..];
    assert FirstEq(t, q - j, 1).None? by {
      assert FirstEq(s, q, 1).None?;
      forall p | 1 <= p && p + 1 < q - j ensures t[p] != '=' { assert t[p] == s[p + j]; }
    }
    assert InfoMatch(t).None?;
    assert FindAllInfo(t) == FindAllInfo(t[1..]);
    if j < q {
      SkipLine(s, q, j + 1);
    }
  }

  /** On the first line, the anchored matcher and the line rule agree. */
  lemma {:induction false} FirstLineAgrees(s: string, q: nat)
    requires LineEnd(s) == Some(q)
    ensures ParseLine(s[..q]) == match InfoMatch(s) case Some((k, v, _)) => Some((k, v)) case None => None
  {
    FirstEqPrefix(s, q, 1);
    var line := s[..q];
    assert |line| == q;
    match FirstEq(s, q, 1)
    case None =>
    case Some(p) =>
      assert line[..p] == s[..p];
      assert line[p + 1..] == s[p + 1..q];
  }

  /** The regular-expression scan and the line rule give the same entries. */
  lemma {:induction false} FindAllIsLineRule(s: string)
    ensures FindAllInfo(s) == LineRule(s)
    decreases |s|
  {
    match LineEnd(s)
    case None =>
      NoLineNoMatch(s);
    case Some(q) =>
      FirstLineStep(s, q);
      FindAllIsLineRule(s[q + 1..]);
  }

  /** The scan handles the first line as the line rule does, then goes on behind it. */
  lemma {:induction false} FirstLineStep(s: string, q: nat)
    requires LineEnd(s) == Some(q)
    ensures FindAllInfo(s) ==
      (match ParseLine(s[..q]) case Some(e) => [e] case None => []) + FindAllInfo(s[q + 1..])
  {
    FirstLineAgrees(s, q);
    if InfoMatch(s).None? {
      SkipLine(s, q, 0);
      assert s[0..] == s;
    }
  }

  /** Text with no '\n' holds no match. */
  lemma {:induction false} NoLineNoMatch(s: string)
    requires '\n' !in s
    ensures FindAllInfo(s) == []
    decreases |s|
  {
    if s != [] {
      assert '\n' !in s[1..];
      NoLineNoMatch(s[1..]);
    }
  }

  /** Empty, or ending with '\n'. */
  predicate Terminated(s: string)
  {
    s == [] || s[|s| - 1] == '\n'
  }

  /** A final line without its '\n' contributes no entry, whatever it holds. */
  lemma {:induction false} UnterminatedTailIgnored(s: string, tail: string)
    requires Terminated(s) && '\n' !in tail
    ensures FindAllInfo(s + tail) == FindAllInfo(s)
  {
    FindAllIsLineRule(s + tail);
    FindAllIsLineRule(s);
    TailIgnoredByLineRule(s, tail);
  }

  lemma {:induction false} TailIgnoredByLineRule(s: string, tail: string)
    requires Terminated(s) && '\n' !in tail
    ensures LineRule(s + tail) == LineRule(s)
    decreases |s|
  {
    if s == [] {
      assert s + tail == tail;
    } else {
      var q := LineEnd(s).value;
      TailKeepsFirstLine(s, tail, q);
      var rest := s[q + 1..];
      assert Terminated(rest) by {
        if rest != [] { assert rest[|rest| - 1] == s[|s| - 1]; }
      }
      TailIgnoredByLineRule(rest, tail);
      SameFirstLine(s + tail, s, q);
    }
  }

  /** Two texts with the same first line and equal entries behind it have equal entries. */
  lemma {:induction false} SameFirstLine(u: string, s: string, q: nat)
    requires LineEnd(u) == Some(q) && LineEnd(s) == Some(q) && u[..q] == s[..q]
    requires LineRule(u[q + 1..]) == LineRule(s[q + 1..])
    ensures LineRule(u) == LineRule(s)
  {
  }

  /** Text appended behind a finished line leaves that line, and what follows it, in place. */
  lemma {:induction false} TailKeepsFirstLine(s: string, tail: string, q: nat)
    requires LineEnd(s) == Some(q)
    ensures LineEnd(s + tail) == Some(q)
    ensures (s + tail)[..q] == s[..q] && (s + tail)[q + 1..] == s[q + 1..] + tail
  {
    LineEndExtends(s, tail);
    var u := s + tail;
    assert u[..q] == s[..q];
    assert u[q + 1..] == s[q + 1..] + tail;
  }

  /** The first line end does not move when text is appended. */
  lemma {:induction false} LineEndExtends(s: string, tail: string)
    requires LineEnd(s).Some?
    ensures LineEnd(s + tail) == LineEnd(s)
    decreases |s|
  {
    if s[0] != '\n' {
      assert (s + tail)[1..] == s[1..] + tail;
      LineEndExtends(s[1..], tail);
    }
  }

  /** BuildInfoMap returns nothing iff no '\n'-terminated line holds an entry. */
  lemma {:induction false} InfoMapNone(info: string)
    ensures InfoMap(info).None? <==> LineRule(info) == []
  {
    FindAllIsLineRule(info);
  }

  /** A key is in the map iff some match has it. */
  lemma {:induction false} MapOfKeys(es: seq<Entry>, k: string)
    ensures k in MapOf(es) <==> exists i :: 0 <= i < |es| && es[i].0 == k
  {
    if es != [] {
      var init := es[..|es| - 1];
      MapOfKeys(init, k);
      assert forall i :: 0 <= i < |init| ==> init[i] == es[i];
    }
  }

  /** When a key repeats, the later line wins: the value is that of the last match with the key. */
  lemma {:induction false} MapOfLastWins(es: seq<Entry>, i: nat)
    requires i < |es|
    requires forall j :: i < j < |es| ==> es[j].0 != es[i].0
    ensures es[i].0 in MapOf(es) && MapOf(es)[es[i].0] == es[i].1
  {
    var init := es[..|es| - 1];
    if i < |es| - 1 {
      assert init[i] == es[i];
      forall j | i < j < |init| ensures init[j].0 != init[i].0 { assert init[j] == es[j]; }
      MapOfLastWins(init, i);
    }
  }

  // Round trip.

  predicate WellFormedEntry(e: Entry)
  {
    |e.0| >= 1 && '=' !in e.0 && '\n' !in e.0 && |e.1| >= 1 && '\n' !in e.1
  }

  /** Writes each entry as a "key=value\n" line. */
  function Serialize(es: seq<Entry>): string
  {
    if es == [] then "" else es[0].0 + "=" + es[0].1 + "\n" + Serialize(es[1..])
  }

  /** Parsing the serialization of well-formed entries gives back those entries. */
  lemma {:induction false} SerializeParses(es: seq<Entry>)
    requires forall i :: 0 <= i < |es| ==> WellFormedEntry(es[i])
    ensures FindAllInfo(Serialize(es)) == es
    decreases |es|
  {
    FindAllIsLineRule(Serialize(es));
    if es != [] {
      var (k, v) := es[0];
      var line := k + "=" + v;
      var rest := Serialize(es[1..]);
      assert Serialize(es) == line + "\n" + rest;
      WellFormedLine(k, v);
      ParseLineMeaning(line, k, v);
      LineRuleStep(line, rest, (k, v));
      SerializeParses(es[1..]);
      FindAllIsLineRule(rest);
      assert es == [(k, v)] + es[1..];
    }
  }

  /** A well-formed entry, written out, is a single entry line. */
  lemma {:induction false} WellFormedLine(k: string, v: string)
    requires WellFormedEntry((k, v))
    ensures '\n' !in k + "=" + v && EntryLine(k + "=" + v, k, v)
  {
    forall i | 0 <= i < |k[1..]| ensures k[1..][i] != '=' { assert k[1..][i] in k; }
  }

  /** The line rule takes one terminated line at a time. */
  lemma {:induction false} LineRuleStep(line: string, rest: string, e: Entry)
    requires '\n' !in line && ParseLine(line) == Some(e)
    ensures LineRule(line + "\n" + rest) == [e] + LineRule(rest)
  {
    var s := line + "\n" + rest;
    LineEndAt(line, rest);
    assert s[..|line|] == line;
    assert s[|line| + 1..] == rest;
  }

  lemma {:induction false} LineEndAt(line: string, rest: string)
    requires '\n' !in line
    ensures LineEnd(line + "\n" + rest) == Some(|line|)
  {
    var s := line + "\n" + rest;
    var r := LineEnd(s);
    assert s[|line|] == '\n';
    assert s[..|line|] == line;
  }

  /** The entries of a map, in some order; each key once. */
  ghost function Listing(m: map<string, string>): (es: seq<Entry>)
    ensures ListsMap(es, m)
    decreases |m|
  {
    if |m| == 0 then []
    else
      var k :| k in m;
      var m' := m - {k};
      var rest := Listing(m');
      var es := [(k, m[k])] + rest;
      ListingStep(m, k, rest);
      es
  }

  /** Putting a key in front of a listing of the rest of the map lists the map. */
  lemma {:induction false} ListingStep(m: map<string, string>, k: string, rest: seq<Entry>)
    requires k in m && ListsMap(rest, m - {k})
    ensures ListsMap([(k, m[k])] + rest, m)
  {
    var m' := m - {k};
    var es := [(k, m[k])] + rest;
    forall i | 0 <= i < |es| ensures es[i].0 in m && m[es[i].0] == es[i].1 {
      if i > 0 { assert es[i] == rest[i - 1]; }
    }
    forall k' | k' in m ensures (k', m[k']) in es {
      if k' != k { assert k' in m' && (k', m'[k']) in rest; }
    }
    forall i, j | 0 <= i < j < |es| ensures es[i].0 != es[j].0 {
      assert es[j] == rest[j - 1];
      if i > 0 { assert es[i] == rest[i - 1]; }
    }
  }

  /** `es` lists the entries of `m`, each key once. */
  ghost predicate ListsMap(es: seq<Entry>, m: map<string, string>)
  {
    (forall i :: 0 <= i < |es| ==> es[i].0 in m && m[es[i].0] == es[i].1)
    && (forall k :: k in m ==> (k, m[k]) in es)
    && (forall i, j :: 0 <= i < j < |es| ==> es[i].0 != es[j].0)
  }

  /** A key of the map is listed once, with its value, and so MapOf keeps that value. */
  lemma {:induction false} ListedOnce(m: map<string, string>, es: seq<Entry>, k: string)
    requires ListsMap(es, m) && k in m
    ensures k in MapOf(es) && MapOf(es)[k] == m[k]
  {
    assert (k, m[k]) in es;
    var i :| 0 <= i < |es| && es[i] == (k, m[k]);
    MapOfLastWins(es, i);
  }

  /** Folding a listing of a map rebuilds the map. */
  lemma {:induction false} MapOfListing(m: map<string, string>, es: seq<Entry>)
    requires ListsMap(es, m)
    ensures MapOf(es) == m
  {
    var mo := MapOf(es);
    forall k | k in m ensures k in mo && mo[k] == m[k] {
      ListedOnce(m, es, k);
    }
    forall k | k in mo ensures k in m {
      MapOfKeys(es, k);
    }
  }

  /**
   * Round trip: writing a non-empty map with non-empty keys free of '=' and '\n' and
   * non-empty values free of '\n' as "key=value\n" lines, in any order (each key once), and
   * parsing the text yields the map.
   */
  lemma {:induction false} BuildInfoRoundTrip(m: map<string, string>, es: seq<Entry>)
    requires |m| > 0
    requires forall k :: k in m ==> WellFormedEntry((k, m[k]))
    requires ListsMap(es, m)
    ensures InfoMap(Serialize(es)) == Some(m)
  {
    forall i | 0 <= i < |es| ensures WellFormedEntry(es[i]) {
      assert es[i] == (es[i].0, m[es[i].0]);
    }
    SerializeParses(es);
    var k :| k in m;
    assert (k, m[k]) in es;
    MapOfListing(m, es);
  }

  /** Every map has such a listing, so the round trip applies to every well-formed map. */
  lemma {:induction false} ListingExists(m: map<string, string>)
    ensures exists es :: ListsMap(es, m)
  {
    var es := Listing(m);
    assert ListsMap(es, m);
  }
}
