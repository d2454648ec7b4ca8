/**
 * Rendering of the database backup script. BackupDatabase takes the embedded pg_dump
 * template and applies strings.ReplaceAll five times, in the fixed order {dbhost},
 * {dbport}, {dbuser}, {dbpwd}, {dbname}, the port written in base 10. This module models
 * that chain and relates it to a one-pass substitution of all five placeholders.
 */
module BackupScript {
  import opened Wrappers
  import opened Strings
  import Strconv

  /** The connection part of the configuration (config.DBConfig). */
  datatype DatabaseConfig = DatabaseConfig(
    dbType: string, host: string, port: int, user: string, passwd: string, name: string)

  /** A placeholder token and the text that replaces it. */
  type Binding = (string, string)

  const Placeholders: seq<string> := ["{dbhost}", "{dbport}", "{dbuser}", "{dbpwd}", "{dbname}"]

  /** The five substitutions of BackupDatabase, in the order it applies them. */
  function Bindings(db: DatabaseConfig): (bs: seq<Binding>)
    ensures Tokens(bs) == Placeholders
  {
    var bs := [("{dbhost}", db.host), ("{dbport}", Strconv.FormatInt(db.port)),
               ("{dbuser}", db.user), ("{dbpwd}", db.passwd), ("{dbname}", db.name)];
    assert Tokens(bs) == Placeholders;
    bs
  }

  function Tokens(bs: seq<Binding>): (ts: seq<string>)
    ensures |ts| == |bs| && forall i :: 0 <= i < |bs| ==> ts[i] == bs[i].0
  {
    if bs == [] then [] else [bs[0].0] + Tokens(bs[1..])
  }

  /** Applies the substitutions one after the other, each over the whole text. */
  function Chain(s: string, bs: seq<Binding>): string
    decreases |bs|
  {
    if bs == [] then s else Chain(ReplaceAll(s, bs[0].0, bs[0].1), bs[1..])
  }

  /** The script BackupDatabase writes to its temporary file. */
  function RenderScript(template: string, db: DatabaseConfig): string
  {
    Chain(template, Bindings(db))
  }

  // ------------------------------------------------------------ one-pass substitution

  /** "{" then at least one rune other than a brace, then "}". */
  predicate Placeholder(t: string)
  {
    |t| >= 2 && t[0] == '{' && t[|t| - 1] == '}' && '{' !in t[1..] && '}' !in t[..|t| - 1]
  }

  predicate AllPlaceholders(ts: seq<string>)
  {
    forall i :: 0 <= i < |ts| ==> Placeholder(ts[i])
  }

  predicate PlainValues(bs: seq<Binding>)
  {
    forall i :: 0 <= i < |bs| ==> '{' !in bs[i].1
  }

  /** The first of the non-empty tokens that `s` starts with. */
  function FirstToken(s: string, ts: seq<string>): (r: Option<nat>)
    ensures r.Some? ==> r.value < |ts| && |ts[r.value]| > 0 && HasPrefix(ts[r.value], s)
    ensures r.Some? ==> forall j :: 0 <= j < r.value ==> !(|ts[j]| > 0 && HasPrefix(ts[j], s))
    ensures r.None? ==> forall j :: 0 <= j < |ts| ==> !(|ts[j]| > 0 && HasPrefix(ts[j], s))
  {
    if ts == [] then None
    else if |ts[0]| > 0 && HasPrefix(ts[0], s) then Some(0)
    else match FirstToken(s, ts[1..])
      case None => None
      case Some(i) => Some(i + 1)
  }

  /** Reference: one left-to-right pass that replaces any of the placeholders where it stands. */
  function Subst(s: string, bs: seq<Binding>): string
    decreases |s|
  {
    if s == [] then []
    else match FirstToken(s, Tokens(bs))
      case Some(i) => bs[i].1 + Subst(s[|bs[i].0|..], bs)
      case None => [s[0]] + Subst(s[1..], bs)
  }

  /** Every '{' of `s` opens one of the tokens `ts`. */
  predicate Braced(s: string, ts: seq<string>)
    decreases |s|
  {
    if s == [] then true
    else if s[0] != '{' then Braced(s[1..], ts)
    else match FirstToken(s, ts)
      case Some(i) => Braced(s[|ts[i]|..], ts)
      case None => false
  }

  lemma {:induction false} PlaceholdersWellFormed()
    ensures AllPlaceholders(Placeholders)
  {
    forall i | 0 <= i < |Placeholders| ensures Placeholder(Placeholders[i]) {
      var t := Placeholders[i];
      assert forall k :: 1 <= k < |t| ==> t[k] != '{';
      assert forall k :: 0 <= k < |t| - 1 ==> t[k] != '}';
    }
  }

  /** Two placeholders that both start a text are the same placeholder. */
  lemma {:induction false} PrefixPlaceholderUnique(t: string, u: string, s: string)
    requires Placeholder(t) && Placeholder(u) && HasPrefix(t, s) && HasPrefix(u, s)
    ensures t == u
  {
    var m := if |t| <= |u| then |t| else |u|;
    assert t[..m] == s[..m] == u[..m];
    assert t[m - 1] == u[m - 1];
    assert |t| == |u| by {
      assert forall k :: 0 <= k < |t| - 1 ==> t[k] != '}';
      assert forall k :: 0 <= k < |u| - 1 ==> u[k] != '}';
    }
    assert t == t[..m] && u == u[..m];
  }

  /** FirstToken only looks at which tokens are prefixes. */
  lemma {:induction false} FirstTokenSame(s1: string, s2: string, ts: seq<string>)
    requires forall j :: 0 <= j < |ts| ==> (HasPrefix(ts[j], s1) <==> HasPrefix(ts[j], s2))
    ensures FirstToken(s1, ts) == FirstToken(s2, ts)
  {
    if ts != [] {
      FirstTokenSame(s1, s2, ts[1..]);
    }
  }

  /** After a placeholder `t`, whatever follows, exactly the tokens equal to `t` match. */
  lemma {:induction false} FirstTokenAfter(t: string, y: string, z: string, ts: seq<string>)
    requires Placeholder(t) && AllPlaceholders(ts)
    ensures FirstToken(t + y, ts) == FirstToken(t + z, ts)
  {
    assert HasPrefix(t, t + y) && HasPrefix(t, t + z);
    forall j | 0 <= j < |ts| ensures HasPrefix(ts[j], t + y) <==> HasPrefix(ts[j], t + z) {
      if HasPrefix(ts[j], t + y) { PrefixPlaceholderUnique(t, ts[j], t + y); }
      if HasPrefix(ts[j], t + z) { PrefixPlaceholderUnique(t, ts[j], t + z); }
    }
    FirstTokenSame(t + y, t + z, ts);
  }

  /** Text without '{' is copied by Subst and does not affect Braced. */
  lemma {:induction false} PlainPrefix(v: string, y: string, bs: seq<Binding>)
    requires '{' !in v && AllPlaceholders(Tokens(bs))
    ensures Braced(v + y, Tokens(bs)) == Braced(y, Tokens(bs))
    ensures Subst(v + y, bs) == v + Subst(y, bs)
  {
    PlainPrefixBraced(v, y, bs);
    PlainPrefixSubst(v, y, bs);
  }

  lemma {:induction false} PlainPrefixBraced(v: string, y: string, bs: seq<Binding>)
    requires '{' !in v && AllPlaceholders(Tokens(bs))
    ensures Braced(v + y, Tokens(bs)) == Braced(y, Tokens(bs))
    decreases |v|
  {
    if v != [] {
      var s := v + y;
      PlainHead(v, y);
      PlainStep(s, bs);
      PlainPrefixBraced(v[1..], y, bs);
    } else {
      assert v + y == y;
    }
  }

  lemma {:induction false} PlainPrefixSubst(v: string, y: string, bs: seq<Binding>)
    requires '{' !in v && AllPlaceholders(Tokens(bs))
    ensures Subst(v + y, bs) == v + Subst(y, bs)
    decreases |v|
  {
    if v != [] {
      var s, rest, sub := v + y, v[1..] + y, Subst(y, bs);
      PlainHead(v, y);
      PlainStep(s, bs);
      assert Subst(s, bs) == [v[0]] + Subst(rest, bs);
      PlainPrefixSubst(v[1..], y, bs);
      assert Subst(rest, bs) == v[1..] + sub;
      ConsSplit(v, sub);
    } else {
      assert v + y == y;
    }
  }

  lemma {:induction false} ConsSplit(v: string, w: string)
    requires v != []
    ensures [v[0]] + (v[1..] + w) == v + w
  {
    assert v == [v[0]] + v[1..];
  }

  /** The first rune of a '{'-free text, and the rest of it. */
  lemma {:induction false} PlainHead(v: string, y: string)
    requires v != [] && '{' !in v
    ensures (v + y)[0] == v[0] != '{' && (v + y)[1..] == v[1..] + y && '{' !in v[1..]
  {
    assert v[0] in v;
    forall k | 0 <= k < |v[1..]| ensures v[1..][k] != '{' { assert v[1..][k] in v; }
  }

  /** A rune other than '{' starts no placeholder: Braced and Subst move past it. */
  lemma {:induction false} PlainStep(s: string, bs: seq<Binding>)
    requires s != [] && s[0] != '{' && AllPlaceholders(Tokens(bs))
    ensures Braced(s, Tokens(bs)) == Braced(s[1..], Tokens(bs))
    ensures Subst(s, bs) == [s[0]] + Subst(s[1..], bs)
  {
    var ts := Tokens(bs);
    forall j | 0 <= j < |ts| ensures !HasPrefix(ts[j], s) {
      assert Placeholder(ts[j]);
    }
    assert FirstToken(s, ts).None?;
  }

  /**
   * One ReplaceAll step of the chain: on a text whose every '{' opens a placeholder of
   * `[(pat, rep)] + bs`, replacing `pat` by a value without '{' leaves a text whose every
   * '{' opens a placeholder of `bs`, and substituting `bs` in one pass afterwards is
   * substituting `[(pat, rep)] + bs` in one pass.
   */
  lemma {:induction false} StepIsSubst(s: string, pat: string, rep: string, bs: seq<Binding>)
    requires Placeholder(pat) && AllPlaceholders(Tokens(bs)) && '{' !in rep
    requires Braced(s, Tokens([(pat, rep)] + bs))
    ensures Braced(ReplaceAll(s, pat, rep), Tokens(bs))
    ensures Subst(ReplaceAll(s, pat, rep), bs) == Subst(s, [(pat, rep)] + bs)
    decreases |s|
  {
    var bs0 := [(pat, rep)] + bs;
    var ts0, ts := Tokens(bs0), Tokens(bs);
    assert ts0 == [pat] + ts && ts0[1..] == ts;
    if s != [] {
      var r := FirstToken(s, ts0);
      if s[0] != '{' {
        StepIsSubst(s[1..], pat, rep, bs);
        StepPlainRune(s, pat, rep, bs);
      } else if r == Some(0) {
        StepIsSubst(s[|pat|..], pat, rep, bs);
        StepPattern(s, pat, rep, bs);
      } else {
        var t := ts[r.value - 1];
        StepIsSubst(s[|t|..], pat, rep, bs);
        StepOtherToken(s, pat, rep, bs, r.value - 1);
      }
    }
  }

  /** The case of StepIsSubst where the text starts with a rune other than '{'. */
  lemma {:induction false} StepPlainRune(s: string, pat: string, rep: string, bs: seq<Binding>)
    requires Placeholder(pat) && AllPlaceholders(Tokens(bs)) && '{' !in rep
    requires s != [] && s[0] != '{'
    requires Braced(s, Tokens([(pat, rep)] + bs))
    requires Braced(ReplaceAll(s[1..], pat, rep), Tokens(bs))
    requires Subst(ReplaceAll(s[1..], pat, rep), bs) == Subst(s[1..], [(pat, rep)] + bs)
    ensures Braced(ReplaceAll(s, pat, rep), Tokens(bs))
    ensures Subst(ReplaceAll(s, pat, rep), bs) == Subst(s, [(pat, rep)] + bs)
  {
    var ts0, ts := Tokens([(pat, rep)] + bs), Tokens(bs);
    assert FirstToken(s, ts0).None?;
    ReplaceAllStep(s, pat, rep);
    var x := ReplaceAll(s[1..], pat, rep);
    assert ([s[0]] + x)[1..] == x;
    assert FirstToken([s[0]] + x, ts).None?;
  }

  /** The case of StepIsSubst where the text starts with `pat` itself. */
  lemma {:induction false} StepPattern(s: string, pat: string, rep: string, bs: seq<Binding>)
    requires Placeholder(pat) && AllPlaceholders(Tokens(bs)) && '{' !in rep
    requires s != [] && s[0] == '{' && FirstToken(s, Tokens([(pat, rep)] + bs)) == Some(0)
    requires Braced(s, Tokens([(pat, rep)] + bs))
    requires Braced(ReplaceAll(s[|pat|..], pat, rep), Tokens(bs))
    requires Subst(ReplaceAll(s[|pat|..], pat, rep), bs) == Subst(s[|pat|..], [(pat, rep)] + bs)
    ensures Braced(ReplaceAll(s, pat, rep), Tokens(bs))
    ensures Subst(ReplaceAll(s, pat, rep), bs) == Subst(s, [(pat, rep)] + bs)
  {
    var ts0 := Tokens([(pat, rep)] + bs);
    assert ts0[0] == pat;
    var rest := s[|pat|..];
    assert ReplaceAll(s, pat, rep) == rep + ReplaceAll(rest, pat, rep);
    PlainPrefix(rep, ReplaceAll(rest, pat, rep), bs);
  }

  /** The case of StepIsSubst where the text starts with the token of `bs[i]`. */
  lemma {:induction false} StepOtherToken(s: string, pat: string, rep: string, bs: seq<Binding>, i: nat)
    requires Placeholder(pat) && AllPlaceholders(Tokens(bs))
    requires FirstToken(s, Tokens([(pat, rep)] + bs)) == Some(i + 1)
    requires Braced(ReplaceAll(s[|Tokens(bs)[i]|..], pat, rep), Tokens(bs))
    requires Subst(ReplaceAll(s[|Tokens(bs)[i]|..], pat, rep), bs) == Subst(s[|Tokens(bs)[i]|..], [(pat, rep)] + bs)
    ensures Braced(ReplaceAll(s, pat, rep), Tokens(bs))
    ensures Subst(ReplaceAll(s, pat, rep), bs) == Subst(s, [(pat, rep)] + bs)
  {
    var t := Tokens(bs)[i];
    var z := ReplaceAll(s[|t|..], pat, rep);
    OtherTokenShape(s, pat, rep, bs, i);
    AfterToken(t, z, bs, i);
  }

  /** Where the text starts with the token of `bs[i]`, both sides begin with that token's work. */
  lemma {:induction false} OtherTokenShape(s: string, pat: string, rep: string, bs: seq<Binding>, i: nat)
    requires Placeholder(pat) && AllPlaceholders(Tokens(bs))
    requires FirstToken(s, Tokens([(pat, rep)] + bs)) == Some(i + 1)
    ensures i < |bs| && |Tokens(bs)[i]| <= |s| && Tokens(bs)[i] != [] && Tokens(bs)[i][0] == '{'
    ensures var t := Tokens(bs)[i];
      && ReplaceAll(s, pat, rep) == t + ReplaceAll(s[|t|..], pat, rep)
      && FirstToken(t + ReplaceAll(s[|t|..], pat, rep), Tokens(bs)) == Some(i)
      && Subst(s, [(pat, rep)] + bs) == bs[i].1 + Subst(s[|t|..], [(pat, rep)] + bs)
  {
    var bs0 := [(pat, rep)] + bs;
    var ts := Tokens(bs);
    var t := ts[i];
    var rest := s[|t|..];
    var z := ReplaceAll(rest, pat, rep);
    assert FirstToken(s, ts) == Some(i) && !HasPrefix(pat, s) by {
      assert Tokens(bs0) == [pat] + ts;
      FirstTokenTail(s, pat, ts, i);
    }
    assert Placeholder(t);
    SkipOtherToken(s, t, pat, rep);
    assert FirstToken(t + z, ts) == Some(i) by {
      assert s == t + rest;
      FirstTokenAfter(t, z, rest, ts);
    }
    assert bs0[i + 1] == bs[i];
    SubstAt(s, bs0, i + 1);
  }

  /** A token found behind `pat` is found one place earlier in the list without it. */
  lemma {:induction false} FirstTokenTail(s: string, pat: string, ts: seq<string>, i: nat)
    requires |pat| > 0 && FirstToken(s, [pat] + ts) == Some(i + 1)
    ensures FirstToken(s, ts) == Some(i) && !HasPrefix(pat, s)
  {
    assert ([pat] + ts)[1..] == ts;
  }

  /** Subst replaces the first token that starts the text. */
  lemma {:induction false} SubstAt(s: string, bs: seq<Binding>, j: nat)
    requires FirstToken(s, Tokens(bs)) == Some(j)
    ensures j < |bs| && HasPrefix(bs[j].0, s)
    ensures Subst(s, bs) == bs[j].1 + Subst(s[|bs[j].0|..], bs)
  {
  }

  /** ReplaceAll copies a leading placeholder other than `pat` unchanged. */
  lemma {:induction false} SkipOtherToken(s: string, t: string, pat: string, rep: string)
    requires Placeholder(pat) && Placeholder(t) && HasPrefix(t, s) && !HasPrefix(pat, s)
    ensures ReplaceAll(s, pat, rep) == t + ReplaceAll(s[|t|..], pat, rep)
  {
    assert s == t + s[|t|..];
    assert pat[0] !in t[1..];
    ReplaceAllSkips(t, s[|t|..], pat, rep);
  }

  /** Behind the token of `bs[i]`, Braced and Subst go on with the rest of the text. */
  lemma {:induction false} AfterToken(t: string, z: string, bs: seq<Binding>, i: nat)
    requires i < |bs| && Tokens(bs)[i] == t && FirstToken(t + z, Tokens(bs)) == Some(i)
    requires t != [] && t[0] == '{'
    ensures Braced(t + z, Tokens(bs)) == Braced(z, Tokens(bs))
    ensures Subst(t + z, bs) == bs[i].1 + Subst(z, bs)
  {
    assert (t + z)[|t|..] == z;
    assert (t + z)[0] == '{';
  }

  lemma {:induction false} BracedNoTokens(s: string)
    requires Braced(s, [])
    ensures '{' !in s
    decreases |s|
  {
    if s != [] {
      BracedNoTokens(s[1..]);
      assert s == [s[0]] + s[1..];
    }
  }

  lemma {:induction false} SubstNothing(s: string)
    ensures Subst(s, []) == s
    decreases |s|
  {
    if s != [] {
      SubstNothing(s[1..]);
      assert s == [s[0]] + s[1..];
    }
  }

  /**
   * When every '{' of the text opens one of the placeholders and no value holds '{', the
   * chain of ReplaceAll steps is the one-pass substitution, and its result has no '{' left.
   */
  lemma {:induction false} ChainIsSubst(s: string, bs: seq<Binding>)
    requires AllPlaceholders(Tokens(bs)) && PlainValues(bs) && Braced(s, Tokens(bs))
    ensures Chain(s, bs) == Subst(s, bs)
    ensures '{' !in Chain(s, bs)
    decreases |bs|
  {
    if bs == [] {
      SubstNothing(s);
      BracedNoTokens(s);
    } else {
      var rest := bs[1..];
      assert bs == [(bs[0].0, bs[0].1)] + rest;
      assert Tokens(bs)[1..] == Tokens(rest);
      assert Placeholder(Tokens(bs)[0]);
      StepIsSubst(s, bs[0].0, bs[0].1, rest);
      ChainIsSubst(ReplaceAll(s, bs[0].0, bs[0].1), rest);
    }
  }

  /**
   * The backup script: for a template whose every '{' opens one of the five placeholders,
   * and a configuration whose host, user, password and database name hold no '{', the
   * rendered script is the one-pass substitution of the template and holds no placeholder.
   */
  lemma {:induction false} RenderScriptComplete(template: string, db: DatabaseConfig)
    requires Braced(template, Placeholders)
    requires '{' !in db.host && '{' !in db.user && '{' !in db.passwd && '{' !in db.name
    ensures RenderScript(template, db) == Subst(template, Bindings(db))
    ensures forall p :: p in Placeholders ==> !Contains(RenderScript(template, db), p)
  {
    var bs := Bindings(db);
    PlaceholdersWellFormed();
    assert '{' !in Strconv.FormatInt(db.port);
    assert PlainValues(bs);
    ChainIsSubst(template, bs);
    var out := RenderScript(template, db);
    forall p | p in Placeholders ensures !Contains(out, p) {
      forall i | 0 <= i <= |out| ensures !HasPrefix(p, out[i..]) {
        if i < |out| { assert out[i..][0] == out[i]; }
      }
    }
  }

  /**
   * Without the condition on the template, placeholders can survive: in "{{dbhost}host}"
   * the host "db" completes a new "{dbhost}" after that token has been replaced.
   */
  lemma {:induction false} StraddlingTemplate(db: DatabaseConfig)
    requires db.host == "db"
    ensures Contains(RenderScript("{{dbhost}host}", db), "{dbhost}")
  {
    var t := "{dbhost}";
    var bs := Bindings(db);
    assert bs[0] == ("{dbhost}", "db");
    StraddleFirstStep();
    assert RenderScript("{{dbhost}host}", db) == Chain(t, bs[1..]);
    OnlyHostToken(t);
    assert Tokens(bs)[1..] == ["{dbport}", "{dbuser}", "{dbpwd}", "{dbname}"];
    ChainAbsent(t, bs[1..]);
    assert t[0..] == t;
    assert HasPrefix("{dbhost}", t[0..]);
  }

  /**
   * Nor is it enough that no value holds a placeholder: in "{dbpwd}st}", whose only '{'
   * opens a placeholder, the password "x{dbho" completes a "{dbhost}" after the host step.
   */
  lemma {:induction false} StraddlingValue(db: DatabaseConfig)
    requires db.passwd == "x{dbho"
    ensures forall p | p in Placeholders :: !Contains(db.passwd, p)
    ensures RenderScript("{dbpwd}st}", db) == "x{dbhost}"
  {
    var t, u := "{dbpwd}st}", "x{dbhost}";
    var bs := Bindings(db);
    NoPlaceholderIn(db.passwd);
    OnlyPwdToken(t);
    assert Tokens(bs) == Placeholders;
    ChainAbsentPrefix(t, bs, 3);
    assert bs[3] == ("{dbpwd}", "x{dbho");
    PwdStep();
    assert bs[3..][1..] == bs[4..];
    assert Chain(t, bs[3..]) == Chain(u, bs[4..]);
    NoNameToken(u);
    ChainAbsent(u, bs[4..]);
  }

  /** The first `n` steps of a chain whose patterns are absent from the text do nothing. */
  lemma {:induction false} ChainAbsentPrefix(s: string, bs: seq<Binding>, n: nat)
    requires n <= |bs|
    requires forall i :: 0 <= i < n ==> |bs[i].0| > 0 && !Contains(s, bs[i].0)
    ensures Chain(s, bs) == Chain(s, bs[n..])
    decreases n
  {
    if n > 0 {
      ReplaceAllAbsent(s, bs[0].0, bs[0].1);
      assert bs[1..][n - 1..] == bs[n..];
      ChainAbsentPrefix(s, bs[1..], n - 1);
    }
  }

  lemma {:induction false} PwdStep()
    ensures ReplaceAll("{dbpwd}st}", "{dbpwd}", "x{dbho") == "x{dbhost}"
  {
    var s := "{dbpwd}st}";
    assert s[..7] == "{dbpwd}";
    assert s[7..] == "st}";
  }

  /** "x{dbho" contains none of the five placeholders: it is shorter than four of them and lacks '}'. */
  lemma {:induction false} NoPlaceholderIn(v: string)
    requires v == "x{dbho"
    ensures forall p | p in Placeholders :: !Contains(v, p)
  {
    forall p | p in Placeholders ensures !Contains(v, p) {
      assert |p| >= 7;
      forall j | 0 <= j <= |v| ensures !HasPrefix(p, v[j..]) {
      }
    }
  }

  lemma {:induction false} OnlyPwdToken(t: string)
    requires t == "{dbpwd}st}"
    ensures forall p | p in ["{dbhost}", "{dbport}", "{dbuser}"] :: !Contains(t, p)
  {
    forall p | p in ["{dbhost}", "{dbport}", "{dbuser}"] ensures !Contains(t, p) {
      assert p[0] == '{' && |p| >= 5;
      forall j | 0 <= j <= |t| ensures !HasPrefix(p, t[j..]) {
        if j == 0 {
          assert t[..|p|][4] == t[4] != p[4];
        } else if j < |t| {
          assert t[j..][0] == t[j] != '{';
        }
      }
    }
  }

  lemma {:induction false} NoNameToken(u: string)
    requires u == "x{dbhost}"
    ensures forall p | p in ["{dbname}"] :: !Contains(u, p)
  {
    var p := "{dbname}";
    assert forall q | q in ["{dbname}"] :: q == p;
    forall j | 0 <= j <= |u| ensures !HasPrefix(p, u[j..]) {
      if j == 1 {
        assert u[1..][..8][3] == u[4] != p[3];
      } else if j < |u| {
        assert u[j..][0] == u[j] != '{';
      }
    }
  }

  /** A chain whose patterns are all absent from the text leaves it as it is. */
  lemma {:induction false} ChainAbsent(s: string, bs: seq<Binding>)
    requires forall i :: 0 <= i < |bs| ==> |bs[i].0| > 0 && !Contains(s, bs[i].0)
    ensures Chain(s, bs) == s
    decreases |bs|
  {
    if bs != [] {
      ReplaceAllAbsent(s, bs[0].0, bs[0].1);
      assert forall i :: 0 <= i < |bs[1..]| ==> bs[1..][i] == bs[i + 1];
      ChainAbsent(s, bs[1..]);
    }
  }

  lemma {:induction false} StraddleFirstStep()
    ensures ReplaceAll("{{dbhost}host}", "{dbhost}", "db") == "{dbhost}"
  {
    var s := "{{dbhost}host}";
    assert s[..8] != "{dbhost}" by { assert s[1] != "{dbhost}"[1]; }
    assert s[1..] == "{dbhost}host}";
    assert s[1..][..8] == "{dbhost}";
    assert s[1..][8..] == "host}";
    assert ReplaceAll("host}", "{dbhost}", "db") == "host}";
  }

  lemma {:induction false} OnlyHostToken(t: string)
    requires t == "{dbhost}"
    ensures forall p | p in ["{dbport}", "{dbuser}", "{dbpwd}", "{dbname}"] :: !Contains(t, p)
  {
    forall p | p in ["{dbport}", "{dbuser}", "{dbpwd}", "{dbname}"] ensures !Contains(t, p) {
      assert p[0] == '{' && |p| >= 4;
      forall j | 0 <= j <= |t| ensures !HasPrefix(p, t[j..]) {
        if j == 0 {
          assert t[..|p|][3] == t[3] != p[3];
        } else if j < |t| {
          assert t[j..][0] == t[j] != '{';
        }
      }
    }
  }
}
