/** What the line recognisers accept, said in terms of how an accepted line is put together. */
module Recognition {
  import opened Text
  import opened Lexing
  import FileItems
  import NginxScan
  import Apache
  import Caddy
  import HAProxy

  // ---------- trimming ----------

  /** s is t with white space around it, and t neither begins nor ends in white space. */
  ghost predicate Trims(s: string, t: string) {
    && (t == "" || Solid(t))
    && exists a, z :: AllSpace(a) && AllSpace(z) && s == a + t + z
  }

  lemma {:induction false} LeftAround(s: string) returns (a: string)
    ensures AllSpace(a) && s == a + TrimLeft(s) && (TrimLeft(s) != "" ==> !IsSpace(TrimLeft(s)[0]))
  {
    if s != "" && IsSpace(s[0]) {
      var more := LeftAround(s[1..]);
      a := [s[0]] + more;
      Assoc([s[0]], more, TrimLeft(s[1..]));
    } else {
      a := "";
      Units(s);
    }
  }

  lemma {:induction false} RightAround(s: string) returns (z: string)
    ensures AllSpace(z) && s == TrimRight(s) + z
    ensures TrimRight(s) != "" ==> !IsSpace(TrimRight(s)[|TrimRight(s)| - 1]) && TrimRight(s)[0] == s[0]
  {
    if s != "" && IsSpace(s[|s| - 1]) {
      var n := |s| - 1;
      var more := RightAround(s[..n]);
      z := more + [s[n]];
      Assoc(TrimRight(s[..n]), more, [s[n]]);
    } else {
      z := "";
      Units(s);
    }
  }

  lemma {:induction false} RightOf(t: string, z: string)
    requires AllSpace(z)
    ensures TrimRight(t + z) == TrimRight(t)
  {
    if z == "" {
      Units(t);
    } else {
      var n := |z| - 1;
      assert (t + z)[..|t| + n] == t + z[..n];
      RightOf(t, z[..n]);
    }
  }

  lemma TrimOf(a: string, t: string, z: string)
    requires AllSpace(a) && AllSpace(z) && (t == "" || Solid(t))
    ensures TrimSpace(a + t + z) == t
  {
    Assoc(a, t, z);
    TrimLeftPadding(a, t + z);
    if t == "" {
      Units(z);
      AllTrimmed(z);
    } else {
      assert (t + z)[0] == t[0];
      RightOf(t, z);
    }
  }

  lemma {:induction false} AllTrimmed(z: string)
    requires AllSpace(z)
    ensures TrimSpace(z) == ""
  {
    if z != "" {
      AllTrimmed(z[1..]);
    }
  }

  /** Trimming takes away exactly the white space around. */
  lemma TrimExactly(s: string, t: string)
    ensures TrimSpace(s) == t <==> Trims(s, t)
  {
    if Trims(s, t) {
      var a, z :| AllSpace(a) && AllSpace(z) && s == a + t + z;
      TrimOf(a, t, z);
    } else {
      var a, z := TrimAround(s);
    }
  }

  lemma TrimAround(s: string) returns (a: string, z: string)
    ensures AllSpace(a) && AllSpace(z) && s == a + TrimSpace(s) + z && (TrimSpace(s) == "" || Solid(TrimSpace(s)))
  {
    a := LeftAround(s);
    z := RightAround(TrimLeft(s));
    Assoc(a, TrimSpace(s), z);
  }

  /** Trimming does not change the words. */
  lemma FieldsOfTrimmed(s: string)
    ensures Fields(TrimSpace(s)) == Fields(s)
  {
    var a, z := TrimAround(s);
    var t := TrimSpace(s);
    Assoc(a, t, z);
    BlankFront(a, t + z, IsSpace);
    FieldsSeam(t, z, IsSpace);
    BlankFront(z, "", IsSpace);
    Units(z);
    Units(Fields(t));
  }

  // ---------- letters and words ----------

  /** The same character, but for its case. */
  predicate SameLetter(c: char, d: char) {
    || c == d
    || ('A' <= c <= 'Z' && d as int == c as int + 32)
    || ('A' <= d <= 'Z' && c as int == d as int + 32)
  }

  predicate SameLetters(a: string, b: string) {
    |a| == |b| && forall i :: 0 <= i < |a| ==> SameLetter(a[i], b[i])
  }

  /** Lower-casing makes equal exactly what differs in case only. */
  lemma LowerExactly(a: string, b: string)
    ensures ToLower(a) == ToLower(b) <==> SameLetters(a, b)
  {
    if ToLower(a) == ToLower(b) {
      forall i | 0 <= i < |a| ensures SameLetter(a[i], b[i]) {
        assert ToLower(a)[i] == ToLower(b)[i];
      }
    }
  }

  /** The words of s are these: with blanks between them they are s. */
  ghost predicate WordsAre(s: string, ws: seq<string>, sep: Sep) {
    exists gaps :: Spacing(gaps, ws, sep) && Spaced(gaps, ws) == s
  }

  /** A text has exactly one list of words. */
  lemma FieldsExactly(s: string, ws: seq<string>, sep: Sep)
    ensures FieldsBy(s, sep) == ws <==> WordsAre(s, ws, sep)
  {
    var gaps := FieldsAreSpaced(s, sep);
    if WordsAre(s, ws, sep) {
      var more :| Spacing(more, ws, sep) && Spaced(more, ws) == s;
      FieldsOfSpaced(more, ws, sep);
    }
  }

  // ---------- HAProxy's frontends ----------

  /** A frontend line: at the very left, the word `frontend`, and the selector as the second word if there is one. */
  lemma FrontendExactly(selector: string, line: string)
    ensures HAProxy.FrontendMatcher(selector)(line)
            <==> && (line == "" || (line[0] != ' ' && line[0] != '\t'))
                 && exists ws :: && WordsAre(line, ws, IsSpace) && ws != [] && ws[0] == "frontend"
                                 && (selector == "" || (|ws| >= 2 && ws[1] == selector))
  {
    FieldsOfTrimmed(line);
    forall ws ensures WordsAre(line, ws, IsSpace) <==> Fields(line) == ws {
      FieldsExactly(line, ws, IsSpace);
    }
    assert WordsAre(line, Fields(line), IsSpace);
  }

  // ---------- Caddy's sites ----------

  /** What stands in front of the brace at the end. */
  lemma BodyExactly(line: string, body: string)
    ensures Trims(line, body + "{") <==> HasSuffix(TrimSpace(line), "{") && body == TrimSuffix(TrimSpace(line), "{")
  {
    var t := TrimSpace(line);
    TrimExactly(line, body + "{");
    assert (body + "{")[..|body|] == body && HasSuffix(body + "{", "{");
    if HasSuffix(t, "{") {
      assert t == t[..|t| - 1] + "{";
    }
  }

  /** A site header: not indented by blanks or tabs, ends in a brace, and the selector, if there is one, is
      among the labels in front of it. */
  lemma SiteExactly(selector: string, line: string)
    ensures Caddy.SiteMatcher(selector)(line)
            <==> && (line == "" || (line[0] != ' ' && line[0] != '\t'))
                 && exists body, labels ::
                      && Trims(line, body + "{") && WordsAre(body, labels, Caddy.IsLabelSep)
                      && (selector == "" || selector in labels)
  {
    var body := TrimSuffix(TrimSpace(line), "{");
    var labels := FieldsBy(body, Caddy.IsLabelSep);
    BodyExactly(line, body);
    FieldsExactly(body, labels, Caddy.IsLabelSep);
    forall b, ls | Trims(line, b + "{") && WordsAre(b, ls, Caddy.IsLabelSep) ensures b == body && ls == labels {
      BodyExactly(line, b);
      FieldsExactly(b, ls, Caddy.IsLabelSep);
    }
  }

  // ---------- Apache's virtual hosts ----------

  /** After white space the line begins with this, in whatever case. */
  ghost predicate Begins(line: string, tag: string) {
    exists a, w, z :: AllSpace(a) && line == a + w + z && SameLetters(w, tag)
  }

  lemma LowerBegins(line: string, tag: string)
    requires HasPrefix(ToLower(TrimSpace(line)), tag) && ToLower(tag) == tag
    ensures Begins(line, tag)
  {
    var t, n := TrimSpace(line), |tag|;
    var a, z := TrimAround(line);
    assert ToLower(t[..n]) == ToLower(t)[..n];
    LowerExactly(t[..n], tag);
    assert line == a + t[..n] + (t[n..] + z);
  }

  lemma BeginsLower(line: string, tag: string)
    requires Begins(line, tag) && tag != "" && ToLower(tag) == tag
    requires forall c :: SameLetter(c, tag[0]) || SameLetter(c, tag[|tag| - 1]) ==> !IsSpace(c)
    ensures HasPrefix(ToLower(TrimSpace(line)), tag)
  {
    var a, w, z :| AllSpace(a) && line == a + w + z && SameLetters(w, tag);
    var r := TrimFrom(a, w, z);
    LowerExactly(w, tag);
    assert ToLower(w + r)[..|tag|] == ToLower(w);
  }

  lemma BeginsExactly(line: string, tag: string)
    requires tag != "" && ToLower(tag) == tag
    requires forall c :: SameLetter(c, tag[0]) || SameLetter(c, tag[|tag| - 1]) ==> !IsSpace(c)
    ensures HasPrefix(ToLower(TrimSpace(line)), tag) <==> Begins(line, tag)
  {
    if HasPrefix(ToLower(TrimSpace(line)), tag) {
      LowerBegins(line, tag);
    }
    if Begins(line, tag) {
      BeginsLower(line, tag);
    }
  }

  /** Trimming keeps a visible text in front. */
  lemma TrimFrom(a: string, w: string, z: string) returns (r: string)
    requires AllSpace(a) && w != "" && !IsSpace(w[0]) && !IsSpace(w[|w| - 1])
    ensures TrimSpace(a + w + z) == w + r
  {
    var back := RightAround(z);
    r := TrimRight(z);
    assert a + w + z == a + (w + r) + back;
    assert r != "" ==> (w + r)[|w + r| - 1] == r[|r| - 1];
    TrimOf(a, w + r, back);
  }

  /** A line opens or closes a virtual host, or names the selector: by its first letters, and by its later words. */
  lemma KindExactly(line: string, selector: string)
    ensures Apache.KindOf(line, selector) == Apache.Opens <==> Begins(line, "<virtualhost")
    ensures Apache.KindOf(line, selector) == Apache.Closes <==> Begins(line, "</virtualhost")
    ensures Apache.KindOf(line, selector) == Apache.Names
            <==> && (Begins(line, "servername") || Begins(line, "serveralias"))
                 && exists ws, k :: WordsAre(line, ws, IsSpace) && 1 <= k < |ws| && ws[k] == selector
  {
    TagsBegin(line);
    TagsApart(ToLower(TrimSpace(line)));
    ListedExactly(line, selector);
  }

  lemma ListedExactly(line: string, selector: string)
    ensures Apache.Lists(Fields(TrimSpace(line)), selector)
            <==> exists ws, k :: WordsAre(line, ws, IsSpace) && 1 <= k < |ws| && ws[k] == selector
  {
    FieldsOfTrimmed(line);
    forall ws ensures WordsAre(line, ws, IsSpace) <==> Fields(line) == ws {
      FieldsExactly(line, ws, IsSpace);
    }
    assert WordsAre(line, Fields(line), IsSpace);
  }

  /** No text begins with two of the tags. */
  lemma TagsApart(low: string)
    ensures !(HasPrefix(low, "<virtualhost") && HasPrefix(low, "</virtualhost"))
    ensures HasPrefix(low, "servername") || HasPrefix(low, "serveralias") ==>
              !HasPrefix(low, "<virtualhost") && !HasPrefix(low, "</virtualhost")
  {
    if HasPrefix(low, "<virtualhost") {
      assert low[0] == "<virtualhost"[0] && low[1] == "<virtualhost"[1];
    }
    if HasPrefix(low, "</virtualhost") {
      assert low[0] == "</virtualhost"[0] && low[1] == "</virtualhost"[1];
    }
    if HasPrefix(low, "servername") {
      assert low[0] == "servername"[0];
    }
    if HasPrefix(low, "serveralias") {
      assert low[0] == "serveralias"[0];
    }
  }

  lemma TagsBegin(line: string)
    ensures HasPrefix(ToLower(TrimSpace(line)), "<virtualhost") <==> Begins(line, "<virtualhost")
    ensures HasPrefix(ToLower(TrimSpace(line)), "</virtualhost") <==> Begins(line, "</virtualhost")
    ensures HasPrefix(ToLower(TrimSpace(line)), "servername") <==> Begins(line, "servername")
    ensures HasPrefix(ToLower(TrimSpace(line)), "serveralias") <==> Begins(line, "serveralias")
  {
    BeginsExactly(line, "<virtualhost");
    BeginsExactly(line, "</virtualhost");
    BeginsExactly(line, "servername");
    BeginsExactly(line, "serveralias");
  }

  // ---------- nginx's server names ----------

  /** The line up to its comment. */
  ghost predicate CodeOf(line: string, code: string) {
    '#' !in code && exists comment :: line == code + comment && (comment == "" || comment[0] == '#')
  }

  lemma {:induction false} HashExactly(line: string, code: string)
    ensures line[..NginxScan.HashIndex(line)] == code <==> CodeOf(line, code)
  {
    var n := NginxScan.HashIndex(line);
    HashMeaning(line);
    if line[..n] == code {
      assert line == code + line[n..];
    }
    if CodeOf(line, code) {
      var comment :| line == code + comment && (comment == "" || comment[0] == '#');
      assert forall i :: 0 <= i < |code| ==> line[i] == code[i];
      assert n >= |code|;
      assert comment != "" ==> line[|code|] == '#';
    }
  }

  lemma {:induction false} HashMeaning(line: string)
    ensures var n := NginxScan.HashIndex(line);
            && (n < |line| ==> line[n] == '#') && (forall i :: 0 <= i < n ==> line[i] != '#')
  {
    if line != "" && line[0] != '#' {
      HashMeaning(line[1..]);
      assert forall i :: 0 < i < NginxScan.HashIndex(line) ==> line[i] == line[1..][i - 1];
    }
  }

  /** What follows the keyword on a line that has it. */
  ghost predicate Follows(line: string, rest: string) {
    exists code, a :: CodeOf(line, code) && SplitsAt(code, a, rest)
  }

  /** The names in what follows: its words, one semicolon at the end left out. */
  ghost predicate NamesIn(rest: string, ws: seq<string>) {
    exists list, z :: WordsAre(list, ws, IsSpace) && Ends(rest, list, z)
  }

  predicate Ends(rest: string, list: string, z: string) {
    AllSpace(z) && (rest == list + ";" + z || (rest == list + z && !HasSuffix(TrimSpace(rest), ";")))
  }

  predicate SplitsAt(code: string, a: string, rest: string) {
    AllSpace(a) && code == a + "server_name" + rest
  }

  ghost predicate FollowsIn(code: string, rest: string) {
    exists a :: SplitsAt(code, a, rest)
  }

  /** The keyword after white space is what trimming brings to the front. */
  lemma KeywordFirst(a: string, rest: string)
    requires AllSpace(a)
    ensures HasPrefix(TrimSpace(a + "server_name" + rest), "server_name")
    ensures TrimLeft(a + "server_name" + rest) == "server_name" + rest
  {
    var r := TrimFrom(a, "server_name", rest);
    assert ("server_name" + r)[..11] == "server_name";
    Assoc(a, "server_name", rest);
    TrimLeftPadding(a, "server_name" + rest);
    assert ("server_name" + rest)[0] == 's';
  }

  lemma OneRest(code: string, rest: string, other: string)
    requires FollowsIn(code, rest) && FollowsIn(code, other)
    ensures rest == other
  {
    var a :| SplitsAt(code, a, rest);
    var b :| SplitsAt(code, b, other);
    KeywordFirst(a, rest);
    KeywordFirst(b, other);
    assert ("server_name" + rest)[11..] == rest && ("server_name" + other)[11..] == other;
  }

  /** Trimming what follows, before or after the whole line is trimmed. */
  lemma TailsTrim(code: string, rest: string, tail: string)
    requires TrimSpace(code) == "server_name" + tail && exists z :: AllSpace(z) && rest == tail + z
    ensures TrimSpace(rest) == TrimSpace(tail)
  {
    var z :| AllSpace(z) && rest == tail + z;
    var a, y := TrimAround(tail);
    var t := TrimSpace(tail);
    assert rest == a + t + (y + z);
    TrimOf(a, t, y + z);
  }

  lemma SaysExactly(s: string)
    ensures NginxScan.SaysServerName(s) <==> HasPrefix(s, "server_name")
  {
    if HasPrefix(s, "server_name") {
      assert forall i :: 0 <= i < 11 ==> s[i] == s[..11][i];
    }
    if NginxScan.SaysServerName(s) {
      assert s[..11] == "server_name";
    }
  }

  lemma CutExactly(rest: string, ws: seq<string>)
    ensures Fields(NginxScan.CutSemicolon(TrimSpace(rest))) == ws <==> NamesIn(rest, ws)
  {
    var t := TrimSpace(rest);
    if Fields(NginxScan.CutSemicolon(t)) == ws {
      CutIsNames(rest, ws);
    }
    if NamesIn(rest, ws) {
      var list, z :| WordsAre(list, ws, IsSpace) && Ends(rest, list, z);
      FieldsExactly(list, ws, IsSpace);
      if rest == list + ";" + z {
        SemicolonCut(list, z);
      } else {
        PlainCut(list, z);
      }
    }
  }

  lemma CutIsNames(rest: string, ws: seq<string>)
    requires Fields(NginxScan.CutSemicolon(TrimSpace(rest))) == ws
    ensures NamesIn(rest, ws)
  {
    var t := TrimSpace(rest);
    var a, z := TrimAround(rest);
    if HasSuffix(t, ";") {
      var body := t[..|t| - 1];
      assert t == body + ";" && NginxScan.CutSemicolon(t) == body;
      BlankFront(a, body, IsSpace);
      FieldsExactly(a + body, ws, IsSpace);
      assert Ends(rest, a + body, z) by { assert rest == (a + body) + ";" + z; }
    } else {
      assert t != "" ==> t[|t| - 1] != ';' by {
        assert t != "" ==> t[|t| - 1..] == [t[|t| - 1]];
      }
      FieldsOfTrimmed(rest);
      FieldsExactly(rest, ws, IsSpace);
      Units(rest);
      assert Ends(rest, rest, "");
    }
  }

  lemma SemicolonJoined(a: string, body: string, z: string)
    ensures a + body + ";" + z == a + (body + ";") + z
    ensures (body + ";")[..|body|] == body && HasSuffix(body + ";", ";")
    ensures (body + ";")[0] == if body == "" then ';' else body[0]
  {
  }

  lemma CutOne(body: string)
    ensures NginxScan.CutSemicolon(body + ";") == body
  {
  }

  /** A list, a semicolon, white space. */
  lemma SemicolonCut(list: string, z: string)
    requires AllSpace(z)
    ensures HasSuffix(TrimSpace(list + ";" + z), ";")
    ensures Fields(NginxScan.CutSemicolon(TrimSpace(list + ";" + z))) == Fields(list)
  {
    var a := LeftAround(list);
    var body := TrimLeft(list);
    SemicolonJoined(a, body, z);
    TrimOf(a, body + ";", z);
    CutOne(body);
    BlankFront(a, body, IsSpace);
  }

  lemma PlainCut(list: string, z: string)
    requires AllSpace(z) && !HasSuffix(TrimSpace(list + z), ";")
    ensures Fields(NginxScan.CutSemicolon(TrimSpace(list + z))) == Fields(list)
  {
    var t := TrimSpace(list + z);
    assert t != "" ==> t[|t| - 1..] == [t[|t| - 1]];
    FieldsOfTrimmed(list + z);
    FieldsSeam(list, z, IsSpace);
    BlankFront(z, "", IsSpace);
    Units(z);
  }

  lemma FollowsExactly(line: string, rest: string)
    ensures Follows(line, rest) <==> FollowsIn(line[..NginxScan.HashIndex(line)], rest)
  {
    var code := line[..NginxScan.HashIndex(line)];
    HashExactly(line, code);
    if Follows(line, rest) {
      var c, a :| CodeOf(line, c) && SplitsAt(c, a, rest);
      HashExactly(line, c);
    }
    if FollowsIn(code, rest) {
      var a :| SplitsAt(code, a, rest);
      assert CodeOf(line, code) && SplitsAt(code, a, rest);
    }
  }

  /** Where there is a keyword, what follows it. */
  lemma RestOf(code: string) returns (rest: string)
    requires HasPrefix(TrimSpace(code), "server_name")
    ensures FollowsIn(code, rest) && TrimSpace(rest) == TrimSpace(TrimSpace(code)[11..])
  {
    var t := TrimSpace(code);
    var a, z := TrimAround(code);
    rest := t[11..] + z;
    assert t == "server_name" + t[11..];
    RestJoined(a, "server_name", t[11..], z);
    assert SplitsAt(code, a, rest);
    TailsTrim(code, rest, t[11..]);
  }

  lemma RestJoined(a: string, b: string, c: string, d: string)
    ensures a + (b + c) + d == a + b + (c + d)
  {
  }

  lemma NoRest(code: string, rest: string)
    requires FollowsIn(code, rest)
    ensures HasPrefix(TrimSpace(code), "server_name")
  {
    var a :| SplitsAt(code, a, rest);
    KeywordFirst(a, rest);
  }

  /** The names on a line: none without the keyword; with it, the words of what follows. */
  lemma NamesExactly(line: string, ws: seq<string>)
    ensures NginxScan.NamesOn(line) == ws
            <==> if exists rest :: Follows(line, rest) then exists rest :: Follows(line, rest) && NamesIn(rest, ws)
                 else ws == []
  {
    var code := line[..NginxScan.HashIndex(line)];
    SaysExactly(TrimSpace(code));
    if HasPrefix(TrimSpace(code), "server_name") {
      var rest := RestOf(code);
      FollowsExactly(line, rest);
      CutExactly(rest, ws);
      forall other | Follows(line, other) ensures other == rest {
        FollowsExactly(line, other);
        OneRest(code, other, rest);
      }
    } else {
      forall rest ensures !Follows(line, rest) {
        FollowsExactly(line, rest);
        if FollowsIn(code, rest) {
          NoRest(code, rest);
        }
      }
    }
  }

  // ---------- Caddy's server options ----------

  predicate Spaces(s: string) {
    forall i :: 0 <= i < |s| ==> Caddy.IsReSpace(s[i])
  }

  /** The text begins with an option that must not be there twice. */
  ghost predicate OptionFirst(s: string) {
    || (exists gap, more :: Spaces(gap) && s == "servers" + gap + "{" + more)
    || (exists more :: s == "trusted_proxies" + more && (more == "" || !Caddy.IsReWord(more[0])))
  }

  /** The text ends where a line may begin. */
  predicate LineMayBegin(front: string) {
    front == "" || front[|front| - 1] == '\n'
  }

  /** Some line begins, white space left out, with an option. */
  ghost predicate SaysOption(src: string) {
    exists front, pad, rest :: src == front + pad + rest && LineMayBegin(front) && Spaces(pad) && OptionFirst(rest)
  }

  lemma OptionSaid(src: string, i: nat, j: nat)
    requires i <= j <= |src| && Caddy.OptionAt(src, i, j)
    ensures SaysOption(src)
  {
    OptionSplits(src, i, j);
    CutTwice(src, i, j);
  }

  lemma CutTwice(s: string, i: nat, j: nat)
    requires i <= j <= |s|
    ensures s == s[..i] + s[i..j] + s[j..]
  {
  }

  /** Options are found exactly where the file says one. */
  lemma ServersExactly(src: string)
    ensures Caddy.GlobalHasServers(src) <==> SaysOption(src)
  {
    if Caddy.GlobalHasServers(src) {
      var i, j :| 0 <= i <= j <= |src| && Caddy.OptionAt(src, i, j);
      OptionSaid(src, i, j);
    }
    if SaysOption(src) {
      var front, pad, rest :| src == front + pad + rest && LineMayBegin(front) && Spaces(pad) && OptionFirst(rest);
      SplitIsOption(src, front, pad, rest);
    }
  }

  /** A text cut at a brace. */
  lemma CutAtBrace(s: string, n: nat, k: nat)
    requires n <= k < |s| && s[k] == '{'
    ensures s == s[..n] + s[n..k] + "{" + s[k + 1..]
  {
  }

  lemma ServersSplits(src: string, j: nat)
    requires j <= |src| && Caddy.ServersAt(src, j)
    ensures OptionFirst(src[j..])
  {
    var rest := src[j..];
    var k :| j + 7 <= k < |src| && src[k] == '{' && forall l :: j + 7 <= l < k ==> Caddy.IsReSpace(src[l]);
    CutAtBrace(rest, 7, k - j);
    var gap := rest[7..k - j];
    assert forall l :: 0 <= l < |gap| ==> gap[l] == src[j + 7 + l];
    assert Spaces(gap) && rest == "servers" + gap + "{" + rest[k - j + 1..];
  }

  lemma TrustedSplits(src: string, j: nat)
    requires j <= |src| && Caddy.TrustedProxiesAt(src, j)
    ensures OptionFirst(src[j..])
  {
    var rest := src[j..];
    assert rest == rest[..15] + rest[15..];
    assert rest[15..] != "" ==> rest[15..][0] == src[j + 15];
  }

  lemma OptionSplits(src: string, i: nat, j: nat)
    requires i <= j <= |src| && Caddy.OptionAt(src, i, j)
    ensures OptionFirst(src[j..]) && Spaces(src[i..j]) && LineMayBegin(src[..i])
  {
    if Caddy.ServersAt(src, j) {
      ServersSplits(src, j);
    } else {
      TrustedSplits(src, j);
    }
  }

  lemma SplitIsOption(src: string, front: string, pad: string, rest: string)
    requires src == front + pad + rest && LineMayBegin(front) && Spaces(pad) && OptionFirst(rest)
    ensures Caddy.GlobalHasServers(src)
  {
    var i, j := |front|, |front| + |pad|;
    assert src[j..] == rest;
    assert forall k :: i <= k < j ==> src[k] == pad[k - i];
    if gap, more :| Spaces(gap) && rest == "servers" + gap + "{" + more {
      var k := j + 7 + |gap|;
      assert rest[..7] == "servers" && src[k] == rest[7 + |gap|] == '{';
      assert forall l :: j + 7 <= l < k ==> src[l] == rest[l - j] == gap[l - j - 7];
      assert Caddy.ServersAt(src, j);
    } else {
      var more :| rest == "trusted_proxies" + more && (more == "" || !Caddy.IsReWord(more[0]));
      assert rest[..15] == "trusted_proxies" && (more != "" ==> src[j + 15] == more[0]);
      assert Caddy.TrustedProxiesAt(src, j);
    }
    assert i > 0 ==> src[i - 1] == front[|front| - 1];
    assert Caddy.OptionAt(src, i, j);
  }
}
