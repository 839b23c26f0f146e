/** HTML as a reader of tags sees it: escaping, and a stack of open elements that
    refuses a tag where it may not stand. `Scan` is the reference that the
    renderer's output is held against.
 */
module Html {
  import opened Outcomes

  function Esc(c: char): string {
    if c == '&' then "&amp;" else if c == '<' then "&lt;" else if c == '>' then "&gt;"
    else if c == '"' then "&quot;" else if c == '\'' then "&#39;" else if c == '`' then "&#96;" else [c]
  }

  function EscAll(s: string): string {
    if s == [] then [] else Esc(s[0]) + EscAll(s[1..])
  }

  predicate Tagless(s: string) {
    forall i :: 0 <= i < |s| ==> s[i] != '<' && s[i] != '>'
  }

  lemma {:induction false} EscTagless(s: string)
    ensures Tagless(EscAll(s))
  {
    if s != [] { EscTagless(s[1..]); }
  }

  /** The character a text begins with, as a reader of entities sees it, and how much
      of the text writes it. */
  function Head(s: string): (char, nat)
    requires s != []
    ensures 1 <= Head(s).1 <= |s|
  {
    if "&amp;" <= s then ('&', 5)
    else if "&lt;" <= s then ('<', 4)
    else if "&gt;" <= s then ('>', 4)
    else if "&quot;" <= s then ('"', 6)
    else if "&#39;" <= s then ('\'', 5)
    else if "&#96;" <= s then ('`', 5)
    else (s[0], 1)
  }

  function Unescaped(s: string): string
    decreases |s|
  {
    if s == [] then [] else [Head(s).0] + Unescaped(s[Head(s).1..])
  }

  lemma HeadOf(c: char, rest: string)
    ensures Esc(c) != [] && Head(Esc(c) + rest) == (c, |Esc(c)|)
  {
    var e := Esc(c);
    var s := e + rest;
    if |e| > 1 {
      assert s[..|e|] == e;
      assert s[1] == e[1] && s[2] == e[2] && s[3] == e[3];
    } else {
      assert s[0] == c;
    }
  }

  lemma UnescapedOne(c: char, rest: string)
    ensures Unescaped(Esc(c) + rest) == [c] + Unescaped(rest)
  {
    hide Head, Esc;
    HeadOf(c, rest);
    var e := Esc(c);
    assert (e + rest)[|e|..] == rest;
  }

  /** ESCAPED TEXT READS BACK, whatever it holds, and has no bracket, quote or backtick. */
  lemma {:induction false} EscReadsBack(s: string)
    ensures Unescaped(EscAll(s)) == s
    ensures forall i :: 0 <= i < |EscAll(s)| ==> EscAll(s)[i] !in "<>\"\'`"
  {
    hide Esc, Unescaped, Head;
    EscapedNothing();
    if s != [] {
      var e, rest := Esc(s[0]), EscAll(s[1..]);
      EscReadsBack(s[1..]);
      UnescapedOne(s[0], rest);
      EscapedOne(s[0]);
      forall i | 0 <= i < |e + rest| ensures (e + rest)[i] !in "<>\"\'`" { if i >= |e| { assert (e + rest)[i] == rest[i - |e|]; } }
      assert [s[0]] + s[1..] == s;
    }
  }

  lemma EscapedNothing()
    ensures Unescaped("") == ""
  {
  }

  lemma EscapedOne(c: char)
    ensures forall i :: 0 <= i < |Esc(c)| ==> Esc(c)[i] !in "<>\"\'`"
  {
  }

  lemma Cat(a: string, b: string, c: string)
    ensures a + b + c == a + (b + c)
  {
  }

  function OpenTag(name: string, attrs: string): string { "<" + name + attrs + ">" }

  function CloseTag(name: string): string { "</" + name + ">" }

  // ------------------------------------------------------------------ the reader

  /** Length of s before its first '>'. */
  function Gt(s: string): (k: nat)
    ensures k <= |s|
  {
    if s == [] || s[0] == '>' then 0 else 1 + Gt(s[1..])
  }

  function NameOf(tag: string): string {
    if tag == [] || tag[0] == ' ' then [] else [tag[0]] + NameOf(tag[1..])
  }

  function Top(st: seq<string>): string {
    if st == [] then "" else st[|st| - 1]
  }

  /** Where an element may open: a list at the top or inside an item, an item
      inside a list, a block at the top, an anchor inside no other anchor. */
  predicate MayOpen(name: string, st: seq<string>) {
    if name == "ul" then st == [] || Top(st) == "li"
    else if name == "li" then Top(st) == "ul"
    else if name == "a" then "a" !in st
    else if name in ["p", "blockquote", "h2", "h3", "h4", "h5", "h6"] then st == []
    else true
  }

  function Apply(tag: string, st: seq<string>): Option<seq<string>> {
    if tag != [] && tag[0] == '/' then
      if st != [] && Top(st) == tag[1..] then Some(st[..|st| - 1]) else None
    else if tag == "hr" then if st == [] then Some(st) else None
    else if MayOpen(NameOf(tag), st) then Some(st + [NameOf(tag)])
    else None
  }

  /** Open elements after s, read from the stack st; None when a tag is out of
      place or unfinished, or a bare '>' stands in the text. */
  function Scan(s: string, st: seq<string>): Option<seq<string>>
    decreases |s|
  {
    if s == [] then Some(st)
    else if s[0] == '<' then
      var k := Gt(s);
      if k >= |s| then None
      else
        var next := Apply(s[1..k], st);
        if next.None? then None else Scan(s[k + 1..], next.value)
    else if s[0] == '>' then None
    else Scan(s[1..], st)
  }

  lemma {:induction false} GtAppend(a: string, b: string)
    requires Gt(a) < |a|
    ensures Gt(a + b) == Gt(a)
  {
    assert (a + b)[0] == a[0];
    if a[0] != '>' {
      assert (a + b)[1..] == a[1..] + b;
      GtAppend(a[1..], b);
    }
  }

  lemma {:induction false} GtAt(x: string, rest: string)
    requires forall i :: 0 <= i < |x| ==> x[i] != '>'
    ensures Gt(x + ">" + rest) == |x|
  {
    var s := x + ">" + rest;
    if x == [] {
      assert s[0] == '>';
    } else {
      assert s[0] == x[0] && s[1..] == x[1..] + ">" + rest;
      GtAt(x[1..], rest);
    }
  }

  lemma TagFirst(a: string, b: string)
    requires a != [] && a[0] == '<' && Gt(a) < |a|
    ensures (a + b)[0] == '<' && Gt(a + b) == Gt(a) && 1 <= Gt(a)
    ensures (a + b)[1..Gt(a)] == a[1..Gt(a)] && (a + b)[Gt(a) + 1..] == a[Gt(a) + 1..] + b
  {
    GtAppend(a, b);
    Parts(a, b, Gt(a));
    assert Gt(a) != 0;
  }

  lemma Parts(a: string, b: string, k: nat)
    requires 1 <= k < |a|
    ensures (a + b)[0] == a[0] && (a + b)[1..k] == a[1..k] && (a + b)[k + 1..] == a[k + 1..] + b
  {
  }

  lemma Later(a: string, b: string)
    requires a != []
    ensures (a + b)[0] == a[0] && (a + b)[1..] == a[1..] + b
  {
  }

  /** One tag at the head of a text. */
  lemma TagThen(tag: string, rest: string)
    requires forall i :: 0 <= i < |tag| ==> tag[i] != '>'
    ensures var s := "<" + tag + ">" + rest; s[0] == '<' && Gt(s) < |s| && s[1..Gt(s)] == tag && s[Gt(s) + 1..] == rest
  {
    var s, x := "<" + tag + ">" + rest, "<" + tag;
    forall i | 0 <= i < |x| ensures x[i] != '>' { if i > 0 { assert x[i] == tag[i - 1]; } }
    GtAt(x, rest);
    assert s == x + ">" + rest && s[1..|x|] == tag && s[|x| + 1..] == rest;
  }

  /** A finished first part can be read on its own. */
  lemma {:induction false} ScanSplit(a: string, b: string, st: seq<string>)
    requires Scan(a, st).Some?
    ensures Scan(a + b, st) == Scan(b, Scan(a, st).value)
    decreases |a|
  {
    hide Apply;
    if a == [] {
      assert a + b == b;
    } else {
      var s := a + b;
      assert s[0] == a[0];
      if a[0] == '<' {
        var k := Gt(a);
        GtAppend(a, b);
        assert s[1..k] == a[1..k] && s[k + 1..] == a[k + 1..] + b;
        ScanSplit(a[k + 1..], b, Apply(a[1..k], st).value);
      } else {
        assert s[1..] == a[1..] + b;
        ScanSplit(a[1..], b, st);
      }
    }
  }

  lemma {:induction false} ScanText(x: string, st: seq<string>)
    requires Tagless(x)
    ensures Scan(x, st) == Some(st)
  {
    if x != [] { ScanText(x[1..], st); }
  }

  lemma ScanEsc(s: string, st: seq<string>)
    ensures Scan(EscAll(s), st) == Some(st)
  {
    EscTagless(s);
    ScanText(EscAll(s), st);
  }

  predicate PlainName(name: string) {
    name != [] && name != "hr" && name[0] != '/'
    && forall i :: 0 <= i < |name| ==> name[i] != ' ' && name[i] != '>' && name[i] != '<'
  }

  predicate PlainAttrs(attrs: string) {
    attrs == [] || (attrs[0] == ' ' && forall i :: 0 <= i < |attrs| ==> attrs[i] != '>')
  }

  lemma {:induction false} NameOfTag(name: string, attrs: string)
    requires forall i :: 0 <= i < |name| ==> name[i] != ' '
    requires attrs == [] || attrs[0] == ' '
    ensures NameOf(name + attrs) == name
  {
    if name == [] {
      assert name + attrs == attrs;
    } else {
      assert (name + attrs)[0] == name[0] && (name + attrs)[1..] == name[1..] + attrs;
      NameOfTag(name[1..], attrs);
    }
  }

  lemma ScanOpen(name: string, attrs: string, st: seq<string>)
    requires PlainName(name) && PlainAttrs(attrs)
    ensures Scan(OpenTag(name, attrs), st) == if MayOpen(name, st) then Some(st + [name]) else None
  {
    hide MayOpen;
    var s, x := OpenTag(name, attrs), "<" + name + attrs;
    forall i | 0 <= i < |x| ensures x[i] != '>' {
      if 0 < i <= |name| { assert x[i] == name[i - 1]; }
      if i > |name| { assert x[i] == attrs[i - 1 - |name|]; }
    }
    assert s == x + ">" + "";
    GtAt(x, "");
    var tag := name + attrs;
    assert s[1..|x|] == tag && s[|x| + 1..] == "" && s[0] == '<';
    assert tag[0] == name[0];
    NameOfTag(name, attrs);
    assert Scan("", st + [name]) == Some(st + [name]);
  }

  lemma ScanClose(name: string, st: seq<string>)
    requires PlainName(name) && st != [] && Top(st) == name
    ensures Scan(CloseTag(name), st) == Some(st[..|st| - 1])
  {
    var s, x := CloseTag(name), "</" + name;
    forall i | 0 <= i < |x| ensures x[i] != '>' {
      if i >= 2 { assert x[i] == name[i - 2]; }
    }
    assert s == x + ">" + "";
    GtAt(x, "");
    var tag := s[1..|x|];
    assert tag == "/" + name && tag[1..] == name && s[|x| + 1..] == "" && s[0] == '<';
  }

  lemma ScanRule()
    ensures Scan("<hr>", []) == Some([])
  {
    var s := "<hr>";
    GtAt("<hr", "");
    assert "<hr" + ">" + "" == s;
    assert s[1..3] == "hr" && s[4..] == "";
  }

  /** An element around balanced content is balanced, where it may open. */
  lemma ScanElement(name: string, attrs: string, body: string, st: seq<string>)
    requires PlainName(name) && PlainAttrs(attrs) && MayOpen(name, st)
    requires Scan(body, st + [name]) == Some(st + [name])
    ensures Scan(OpenTag(name, attrs) + body + CloseTag(name), st) == Some(st)
  {
    hide MayOpen, Scan, OpenTag, CloseTag, PlainName, PlainAttrs;
    ScanOpen(name, attrs, st);
    ScanSplit(OpenTag(name, attrs), body, st);
    ScanSplit(OpenTag(name, attrs) + body, CloseTag(name), st);
    ScanClose(name, st + [name]);
    assert (st + [name])[..|st|] == st;
  }

  lemma ScanTwo(a: string, b: string, st: seq<string>)
    requires Scan(a, st) == Some(st) && Scan(b, st) == Some(st)
    ensures Scan(a + b, st) == Some(st)
  {
    ScanSplit(a, b, st);
  }
}
