/** Link-local pairs in a signing message. An address is printed as section 4.2 of RFC 5952 requires; the
    field joins two of them with a colon, which addresses contain as well. */
module LinkLocal {
  import opened Peers
  import Text

  // ---- printing an address ----

  function HexDigit(d: nat): (c: char)
    requires d < 16
    ensures LowerHex(c) && HexDigitValue(c) == d
  {
    if d < 10 then '0' + d as char else 'a' + (d - 10) as char
  }

  predicate LowerHex(c: char) {
    '0' <= c <= '9' || 'a' <= c <= 'f'
  }

  function HexDigitValue(c: char): nat {
    if '0' <= c <= '9' then (c - '0') as nat
    else if 'a' <= c <= 'f' then 10 + (c - 'a') as nat
    else 0
  }

  function HexValue(s: string): nat {
    if s == "" then 0 else 16 * HexValue(s[..|s| - 1]) + HexDigitValue(s[|s| - 1])
  }

  /** A group in lower case, without leading zeros. */
  function Hex(n: nat): (s: string)
    ensures s != "" && forall i :: 0 <= i < |s| ==> LowerHex(s[i])
    ensures HexValue(s) == n
    ensures n == 0 ==> s == "0"
    ensures n > 0 ==> s[0] != '0'
  {
    if n < 16 then [HexDigit(n)]
    else
      var s := Hex(n / 16) + [HexDigit(n % 16)];
      assert s[..|s| - 1] == Hex(n / 16);
      s
  }

  /** The number of zero groups from position i on. */
  function ZerosAt(a: seq<nat>, i: nat): (n: nat)
    ensures n > 0 ==> i + n <= |a|
    ensures forall j :: i <= j < i + n ==> a[j] == 0
    decreases |a| - i
  {
    if i < |a| && a[i] == 0 then 1 + ZerosAt(a, i + 1) else 0
  }

  /** Where the first of the longest runs of zeros among the first k positions starts. */
  function LongestRun(a: seq<nat>, k: nat): (s: nat)
    ensures k > 0 ==> s < k
    ensures forall i :: 0 <= i < k ==> ZerosAt(a, i) <= ZerosAt(a, s)
    ensures forall i :: 0 <= i < s ==> ZerosAt(a, i) < ZerosAt(a, s)
  {
    if k == 0 then 0
    else
      var s := LongestRun(a, k - 1);
      if k == 1 || ZerosAt(a, k - 1) > ZerosAt(a, s) then k - 1 else s
  }

  /** The groups before the `::`, and those after it if there is one. */
  datatype Form = Form(head: seq<nat>, tail: Option<seq<nat>>)

  function FormOf(a: Ipv6): Form {
    var s := LongestRun(a, |a|);
    var n := ZerosAt(a, s);
    if n < 2 then Form(a, None) else Form(a[..s], Some(a[s + n..]))
  }

  function Zeros(n: nat): (z: seq<nat>)
    ensures |z| == n && forall i :: 0 <= i < n ==> z[i] == 0
  {
    seq(n, _ => 0)
  }

  function Expand(head: seq<nat>, tail: seq<nat>): Ipv6
    requires |head| + |tail| <= 8
  {
    head + Zeros(8 - |head| - |tail|) + tail
  }

  /** What stands between the colons; `None` is the empty text beside another colon. */
  function Code(f: Form): seq<Option<nat>> {
    if f.tail.None? then Groups(f.head)
    else
      (if f.head == [] then [None] else Groups(f.head)) + [None]
      + if f.tail.value == [] then [None] else Groups(f.tail.value)
  }

  function Groups(s: seq<nat>): (c: seq<Option<nat>>)
    ensures |c| == |s| && forall i :: 0 <= i < |s| ==> c[i] == Some(s[i])
  {
    seq(|s|, i requires 0 <= i < |s| => Some(s[i]))
  }

  function Token(o: Option<nat>): (s: string)
    ensures ':' !in s && '\n' !in s
  {
    if o.Some? then Hex(o.value) else ""
  }

  function Print(c: seq<Option<nat>>): (s: string)
    ensures '\n' !in s
  {
    if c == [] then ""
    else if |c| == 1 then Token(c[0])
    else Token(c[0]) + ":" + Print(c[1..])
  }

  function AddressText(a: Ipv6): string {
    Print(Code(FormOf(a)))
  }

  /** `link_local_message` */
  function FieldText(ll: Option<(Ipv6, Ipv6)>): (s: string)
    ensures '\n' !in s
  {
    match ll
    case Some((local, remote)) => "manual:" + AddressText(local) + ":" + AddressText(remote)
    case None => "auto"
  }

  // ---- what a request may contain ----

  /** fe80::/10 */
  predicate IsLinkLocal(a: Ipv6) {
    IsAddress(a) && 0xfe80 <= a[0] < 0xfec0
  }

  /** fe80::/64, section 2.5.6 of RFC 4291. */
  predicate InLinkLocalPrefix(a: Ipv6) {
    IsAddress(a) && a[0] == 0xfe80 && a[1] == a[2] == a[3] == 0
  }

  /** `parse_link_local` accepts exactly these. */
  predicate Accepted(ll: Option<(Ipv6, Ipv6)>) {
    ll.Some? ==> IsLinkLocal(ll.value.0) && IsLinkLocal(ll.value.1) && ll.value.0 != ll.value.1
  }

  // ---- text and tokens ----

  lemma TokenInjective(a: Option<nat>, b: Option<nat>)
    requires Token(a) == Token(b)
    ensures a == b
  {
  }

  lemma NoColon(t: string, u: string, x: string)
    requires t == u + ":" + x
    ensures ':' in t
  {
    assert t[|u|] == ':';
  }

  lemma {:induction false} PrintInjective(c: seq<Option<nat>>, d: seq<Option<nat>>)
    requires c != [] && d != [] && Print(c) == Print(d)
    ensures c == d
  {
    if |c| == 1 && |d| == 1 {
      TokenInjective(c[0], d[0]);
    } else if |c| == 1 {
      NoColon(Token(c[0]), Token(d[0]), Print(d[1..]));
    } else if |d| == 1 {
      NoColon(Token(d[0]), Token(c[0]), Print(c[1..]));
    } else {
      Text.FirstCut(Token(c[0]), Print(c[1..]), Token(d[0]), Print(d[1..]), ':');
      TokenInjective(c[0], d[0]);
      PrintInjective(c[1..], d[1..]);
      assert c == [c[0]] + c[1..] && d == [d[0]] + d[1..];
    }
  }

  lemma Regroup(a: string, b: string, c: string)
    ensures a + ":" + b + ":" + c == a + ":" + (b + ":" + c)
  {
  }

  lemma {:induction false} PrintJoin(c: seq<Option<nat>>, d: seq<Option<nat>>)
    requires c != [] && d != []
    ensures Print(c + d) == Print(c) + ":" + Print(d)
  {
    assert (c + d)[1..] == c[1..] + d;
    if |c| > 1 {
      PrintJoin(c[1..], d);
      Regroup(Token(c[0]), Print(c[1..]), Print(d));
    }
  }

  // ---- the form of an address ----

  /** What the form of a link-local address satisfies. */
  predicate Proper(f: Form) {
    && f.head != []
    && if f.tail.None? then |f.head| == 8 else |f.head| + |f.tail.value| <= 6
  }

  lemma FormExpands(a: Ipv6)
    requires IsLinkLocal(a)
    ensures var f := FormOf(a);
            && Proper(f) && f.head[0] == a[0]
            && if f.tail.None? then f.head == a else Expand(f.head, f.tail.value) == a
  {
    var s := LongestRun(a, 8);
    var n := ZerosAt(a, s);
    if n >= 2 {
      assert a == a[..s] + a[s..s + n] + a[s + n..];
      assert a[s..s + n] == Zeros(n);
    }
  }

  /** The code, token by token. */
  lemma CodeParts(f: Form)
    requires f.head != []
    ensures Code(f) != [] && (Proper(f) ==> |Code(f)| <= 8)
    ensures forall i :: 0 <= i < |f.head| ==> Code(f)[i] == Some(f.head[i])
    ensures f.tail.None? ==> |Code(f)| == |f.head|
    ensures f.tail.Some? ==>
              var h, t := |f.head|, f.tail.value;
              && |Code(f)| == h + 1 + (if t == [] then 1 else |t|)
              && Code(f)[h] == None
              && (t == [] ==> Code(f)[h + 1] == None)
              && forall i :: 0 <= i < |t| ==> Code(f)[h + 1 + i] == Some(t[i])
  {
  }

  lemma CodeDetermines(f: Form, g: Form)
    requires f.head != [] && g.head != [] && Code(f) == Code(g)
    ensures f == g
  {
    CodeParts(f);
    CodeParts(g);
    assert f.tail.Some? && g.tail.Some? ==> |f.head| == |g.head|;
    assert f.head == g.head;
    if f.tail.Some? && g.tail.Some? {
      assert f.tail.value == g.tail.value;
    }
  }

  lemma GroupsJoin(s: seq<nat>, t: seq<nat>)
    ensures Groups(s + t) == Groups(s) + Groups(t)
  {
  }

  /** A code that continues another one is compressed at the same place. */
  lemma LongerCode(f: Form, f': Form)
    requires Proper(f) && Proper(f') && Code(f) < Code(f')
    ensures f.tail.Some? && f'.tail.Some? && f'.head == f.head && f.tail.value != []
    ensures f.tail.value < f'.tail.value
  {
    CodeParts(f);
    CodeParts(f');
    assert forall i :: 0 <= i < |Code(f)| ==> Code(f)[i] == Code(f')[i];
    assert f.tail.Some? && f'.tail.Some?;
    assert |f.head| == |f'.head|;
    assert f.head == f'.head;
    assert f.tail.value != [] && f'.tail.value != [];
    assert forall i :: 0 <= i < |f.tail.value| ==> f.tail.value[i] == f'.tail.value[i];
  }

  lemma Continued(f: Form, f': Form)
    requires Proper(f) && Proper(f') && f.tail.Some? && f'.tail.Some? && f'.head == f.head
    requires f.tail.value != [] && f.tail.value < f'.tail.value
    ensures Code(f') == Code(f) + Groups(f'.tail.value[|f.tail.value|..])
  {
    GroupsJoin(f.tail.value, f'.tail.value[|f.tail.value|..]);
    assert f'.tail.value == f.tail.value + f'.tail.value[|f.tail.value|..];
  }

  lemma ShorterCode(g: Form, g': Form, m: seq<nat>)
    requires Proper(g) && Proper(g') && m != [] && Code(g) == Groups(m) + Code(g')
    ensures g.tail.Some? && g'.tail == g.tail && g.head == m + g'.head
  {
    GroupsJoin(m, g'.head);
    CodeDetermines(g, Form(m + g'.head, g'.tail));
  }

  /** When two pairs of forms print alike and the first cut is earlier, all of the four addresses are
      compressed and the groups between the two gaps are only divided differently. */
  lemma Overlap(f: Form, g: Form, f': Form, g': Form)
    requires Proper(f) && Proper(g) && Proper(f') && Proper(g')
    requires Code(f) + Code(g) == Code(f') + Code(g') && |Code(f)| < |Code(f')|
    ensures f.tail.Some? && g.tail.Some? && f'.tail.Some? && g'.tail.Some?
    ensures f'.head == f.head && g'.tail == g.tail && f.tail.value != []
    ensures |f.tail.value| < |f'.tail.value| && f.tail.value + g.head == f'.tail.value + g'.head
  {
    var m := LaterCut(f, g, f', g');
    ShorterCode(g, g', m);
    Rejoin(f.tail.value, m, g'.head);
  }

  /** The groups by which the second address starts later. */
  lemma LaterCut(f: Form, g: Form, f': Form, g': Form) returns (m: seq<nat>)
    requires Proper(f) && Proper(f') && Code(f) + Code(g) == Code(f') + Code(g') && |Code(f)| < |Code(f')|
    ensures f.tail.Some? && f'.tail.Some? && f'.head == f.head && f.tail.value != []
    ensures m != [] && f'.tail.value == f.tail.value + m && Code(g) == Groups(m) + Code(g')
  {
    CutLater(Code(f), Code(g), Code(f'), Code(g'));
    LongerCode(f, f');
    Continued(f, f');
    m := f'.tail.value[|f.tail.value|..];
    CutAt(Code(f), Groups(m));
  }

  lemma CutLater<T>(a: seq<T>, b: seq<T>, a': seq<T>, b': seq<T>)
    requires a + b == a' + b' && |a| < |a'|
    ensures a < a' && b == a'[|a|..] + b'
  {
    assert a == (a + b)[..|a|] && a' == (a + b)[..|a'|];
    assert b == (a + b)[|a|..] == (a' + b')[|a|..];
  }

  lemma CutAt<T>(a: seq<T>, b: seq<T>)
    ensures (a + b)[|a|..] == b
  {
  }

  lemma Rejoin(a: seq<nat>, b: seq<nat>, c: seq<nat>)
    ensures a + (b + c) == (a + b) + c
  {
  }

  // ---- which zeros are left out ----

  predicate ZeroRun(a: seq<nat>, i: nat, k: nat) {
    i + k <= |a| && forall j :: i <= j < i + k ==> a[j] == 0
  }

  lemma {:induction false} RunCounted(a: seq<nat>, i: nat, k: nat)
    requires ZeroRun(a, i, k)
    ensures k <= ZerosAt(a, i)
    decreases k
  {
    if k > 0 { RunCounted(a, i + 1, k - 1); }
  }

  /** Two or more zero groups are left out: the longest run, and the first of those (section 4.2 of RFC 5952). */
  lemma GapExactly(a: Ipv6)
    requires IsAddress(a)
    ensures var f := FormOf(a);
            if f.tail.None? then f.head == a && forall i :: 0 <= i < 7 ==> !ZeroRun(a, i, 2)
            else
              var n := 8 - |f.head| - |f.tail.value|;
              && n >= 2 && a == f.head + a[|f.head|..|f.head| + n] + f.tail.value && ZeroRun(a, |f.head|, n)
              && forall i: nat, k: nat :: k > 0 && ZeroRun(a, i, k) ==> k <= n && (k == n ==> |f.head| <= i)
  {
    var s := LongestRun(a, 8);
    forall i: nat, k: nat | k > 0 && ZeroRun(a, i, k) ensures k <= ZerosAt(a, s) && (k == ZerosAt(a, s) ==> s <= i) {
      RunCounted(a, i, k);
    }
  }

  // ---- what the field determines ----

  lemma FieldCode(l: Ipv6, r: Ipv6)
    requires IsLinkLocal(l) && IsLinkLocal(r)
    ensures FieldText(Some((l, r))) == "manual:" + Print(Code(FormOf(l)) + Code(FormOf(r)))
  {
    FormExpands(l);
    FormExpands(r);
    CodeParts(FormOf(l));
    CodeParts(FormOf(r));
    PrintJoin(Code(FormOf(l)), Code(FormOf(r)));
    Prefixed("manual:", AddressText(l), AddressText(r));
  }

  lemma Prefixed(p: string, a: string, b: string)
    ensures p + a + ":" + b == p + (a + ":" + b)
  {
  }

  /** Two accepted pairs with the same text. */
  predicate Alike(l: Ipv6, r: Ipv6, l': Ipv6, r': Ipv6) {
    && Accepted(Some((l, r))) && Accepted(Some((l', r')))
    && FieldText(Some((l, r))) == FieldText(Some((l', r')))
  }

  lemma AlikeCode(l: Ipv6, r: Ipv6, l': Ipv6, r': Ipv6)
    requires Accepted(Some((l, r))) && Accepted(Some((l', r')))
    ensures Alike(l, r, l', r') <==> Code(FormOf(l)) + Code(FormOf(r)) == Code(FormOf(l')) + Code(FormOf(r'))
  {
    FieldCode(l, r);
    FieldCode(l', r');
    FormExpands(l);
    FormExpands(l');
    CodeParts(FormOf(l));
    CodeParts(FormOf(l'));
    if Alike(l, r, l', r') {
      Text.SamePrefix("manual:", Print(Code(FormOf(l)) + Code(FormOf(r))), Print(Code(FormOf(l')) + Code(FormOf(r'))));
      PrintInjective(Code(FormOf(l)) + Code(FormOf(r)), Code(FormOf(l')) + Code(FormOf(r')));
    }
  }

  /** The groups are those of a link-local address that is printed with the gap between them. */
  predicate Canonical(head: seq<nat>, tail: seq<nat>) {
    && |head| + |tail| <= 6 && head != [] && 0xfe80 <= head[0] < 0xfec0
    && FormOf(Expand(head, tail)) == Form(head, Some(tail))
  }

  /** The groups between the two gaps can also be divided after i of them. */
  predicate SplitsAt(f: Form, g: Form, i: nat) {
    && f.tail.Some? && g.tail.Some? && f.tail.value != []
    && var m := f.tail.value + g.head;
    && 0 < i < |m| && i != |f.tail.value|
    && Canonical(f.head, m[..i]) && Canonical(m[i..], g.tail.value)
    && Expand(f.head, m[..i]) != Expand(m[i..], g.tail.value)
  }

  /** Some group between the gaps, other than the first of the remote address, could start an address. */
  predicate Resplits(l: Ipv6, r: Ipv6) {
    exists i :: 0 < i < 16 && SplitsAt(FormOf(l), FormOf(r), i)
  }

  lemma SplitCode(head: seq<nat>, m: seq<nat>, tail: Option<seq<nat>>, i: nat, j: nat)
    requires head != [] && tail.Some? && 0 < i < |m| && 0 < j < |m|
    ensures Code(Form(head, Some(m[..i]))) + Code(Form(m[i..], tail)) == Code(Form(head,
              Some(m[..j]))) + Code(Form(m[j..], tail))
  {
    SplitAgain(head, m, tail, i);
    SplitAgain(head, m, tail, j);
  }

  lemma SplitAgain(head: seq<nat>, m: seq<nat>, tail: Option<seq<nat>>, i: nat)
    requires head != [] && tail.Some? && 0 < i < |m|
    ensures Code(Form(head, Some(m[..i]))) + Code(Form(m[i..], tail))
         == (Groups(head) + [None]) + Groups(m) + ([None] + if tail.value == [] then [None] else Groups(tail.value))
  {
    GroupsJoin(m[..i], m[i..]);
    assert m[..i] + m[i..] == m;
    var end := if tail.value == [] then [None] else Groups(tail.value);
    Shift(Groups(head) + [None], Groups(m[..i]), Groups(m[i..]), end);
  }

  lemma Shift<T>(a: seq<T>, b: seq<T>, c: seq<T>, end: seq<T>)
    ensures forall gap: T {:trigger [gap]} :: (a + b) + (c + [gap] + end) == a + (b + c) + ([gap] + end)
  {
  }

  lemma ExpandLinkLocal(head: seq<nat>, tail: seq<nat>)
    requires Canonical(head, tail)
    requires (forall i :: 0 <= i < |head| ==> head[i] < 0x1_0000) && forall i :: 0 <= i < |tail| ==> tail[i] < 0x1_0000
    ensures IsLinkLocal(Expand(head, tail))
  {
  }

  lemma SmallGroups(a: Ipv6)
    requires IsLinkLocal(a)
    ensures forall i :: 0 <= i < |FormOf(a).head| ==> FormOf(a).head[i] < 0x1_0000
    ensures var t := FormOf(a).tail; t.Some? ==> forall i :: 0 <= i < |t.value| ==> t.value[i] < 0x1_0000
  {
  }

  lemma ResplitAccepted(l: Ipv6, r: Ipv6, i: nat)
    requires Accepted(Some((l, r))) && SplitsAt(FormOf(l), FormOf(r), i)
    ensures var f, g := FormOf(l), FormOf(r);
            var m := f.tail.value + g.head;
            Accepted(Some((Expand(f.head, m[..i]), Expand(m[i..], g.tail.value))))
  {
    var f, g := FormOf(l), FormOf(r);
    SmallGroups(l);
    SmallGroups(r);
    var m := f.tail.value + g.head;
    ExpandLinkLocal(f.head, m[..i]);
    ExpandLinkLocal(m[i..], g.tail.value);
  }

  lemma Resplit(l: Ipv6, r: Ipv6, i: nat) returns (l': Ipv6, r': Ipv6)
    requires Accepted(Some((l, r))) && SplitsAt(FormOf(l), FormOf(r), i)
    ensures Alike(l, r, l', r') && (l', r') != (l, r)
  {
    var f, g := FormOf(l), FormOf(r);
    FormExpands(l);
    FormExpands(r);
    var m := f.tail.value + g.head;
    l', r' := Expand(f.head, m[..i]), Expand(m[i..], g.tail.value);
    ResplitAccepted(l, r, i);
    var j := |f.tail.value|;
    assert m[..j] == f.tail.value && m[j..] == g.head;
    SplitCode(f.head, m, g.tail, i, j);
    AlikeCode(l, r, l', r');
  }

  lemma AlikeSplits(l: Ipv6, r: Ipv6, l': Ipv6, r': Ipv6)
    requires Alike(l, r, l', r') && (l', r') != (l, r)
    ensures var f, f', g, g' := FormOf(l), FormOf(l'), FormOf(r), FormOf(r');
            && f'.tail.Some? && g'.tail.Some? && g.tail == g'.tail && SplitsAt(f, g, |f'.tail.value|)
            && f.tail.value + g.head == f'.tail.value + g'.head
  {
    var f, f', g, g' := FormOf(l), FormOf(l'), FormOf(r), FormOf(r');
    FormExpands(l);
    FormExpands(r);
    FormExpands(l');
    FormExpands(r');
    AlikeCode(l, r, l', r');
    if |Code(f)| == |Code(f')| {
      assert Code(f) == (Code(f) + Code(g))[..|Code(f)|] == Code(f');
      assert Code(g) == (Code(f) + Code(g))[|Code(f)|..] == Code(g');
      CodeDetermines(f, f');
      CodeDetermines(g, g');
      assert false;
    }
    if |Code(f)| < |Code(f')| {
      Overlap(f, g, f', g');
    } else {
      Overlap(f', g', f, g);
    }
    var m := f.tail.value + g.head;
    var i := |f'.tail.value|;
    assert m[..i] == f'.tail.value && m[i..] == g'.head;
  }

  /** Exactly which pairs the field does not determine. */
  lemma FieldAmbiguity(l: Ipv6, r: Ipv6)
    requires Accepted(Some((l, r)))
    ensures (exists l', r' :: Alike(l, r, l', r') && (l', r') != (l, r)) <==> Resplits(l, r)
  {
    if Resplits(l, r) {
      var i :| 0 < i < 16 && SplitsAt(FormOf(l), FormOf(r), i);
      var l', r' := Resplit(l, r, i);
    }
    if l', r' :| Alike(l, r, l', r') && (l', r') != (l, r) {
      AlikeSplits(l, r, l', r');
    }
  }

  lemma Places(a: Ipv6)
    requires IsLinkLocal(a)
    ensures var f := FormOf(a);
            && (forall i :: 0 <= i < |f.head| ==> f.head[i] == a[i])
            && (f.tail.Some? ==> |f.head| + |f.tail.value| <= 6)
            && (f.tail.Some? ==>
                  forall i :: 0 <= i < |f.tail.value| ==> f.tail.value[i] == a[8 - |f.tail.value| + i])
  {
    FormExpands(a);
  }

  /** A pair none of whose later groups looks like the start of a link-local address is determined. */
  lemma PlainPairDetermined(l: Ipv6, r: Ipv6, l': Ipv6, r': Ipv6)
    requires Alike(l, r, l', r')
    requires forall i :: 1 <= i < 8 ==> !(0xfe80 <= l[i] < 0xfec0) && !(0xfe80 <= r[i] < 0xfec0)
    ensures l' == l && r' == r
  {
    if (l', r') != (l, r) {
      AlikeSplits(l, r, l', r');
      var i := InnerHead(l, r, |FormOf(l').tail.value|);
    }
  }

  /** A group that could start an address stands in the middle. */
  lemma InnerHead(l: Ipv6, r: Ipv6, i: nat) returns (j: nat)
    requires IsLinkLocal(l) && IsLinkLocal(r) && SplitsAt(FormOf(l), FormOf(r), i)
    ensures 1 <= j < 8 && (0xfe80 <= l[j] < 0xfec0 || 0xfe80 <= r[j] < 0xfec0)
  {
    Places(l);
    Places(r);
    var t := |FormOf(l).tail.value|;
    j := if i < t then 8 - t + i else i - t;
  }

  lemma PrefixForm(a: Ipv6)
    requires InLinkLocalPrefix(a)
    ensures IsLinkLocal(a) && FormOf(a).tail.Some? && FormOf(a).head == [0xfe80]
  {
    var s := LongestRun(a, 8);
    assert ZerosAt(a, 1) == 1 + ZerosAt(a, 2) == 2 + ZerosAt(a, 3) == 3 + ZerosAt(a, 4);
    assert ZerosAt(a, s) >= ZerosAt(a, 1) >= 3;
  }

  /** In fe80::/64 the field always determines both addresses. */
  lemma PrefixPairDetermined(l: Ipv6, r: Ipv6, l': Ipv6, r': Ipv6)
    requires InLinkLocalPrefix(l) && InLinkLocalPrefix(r) && InLinkLocalPrefix(l') && InLinkLocalPrefix(r')
    requires Alike(l, r, l', r')
    ensures l' == l && r' == r
  {
    PrefixForm(r);
    PrefixForm(r');
    if (l', r') != (l, r) {
      AlikeSplits(l, r, l', r');
    }
  }

  /** `auto` is no pair, in all of fe80::/10. */
  lemma AutoIsNoPair(l: Ipv6, r: Ipv6)
    ensures FieldText(Some((l, r))) != FieldText(None)
  {
    assert FieldText(Some((l, r)))[0] == 'm' && FieldText(None)[0] == 'a';
  }

  const NEAR: Ipv6 := [0xfe80, 0, 0, 0, 0, 0, 0, 1]
  const FAR: Ipv6 := [0xfe80, 0xfe80, 0, 0, 0, 0, 0, 2]
  const NEAR2: Ipv6 := [0xfe80, 0, 0, 0, 0, 0, 1, 0xfe80]
  const FAR2: Ipv6 := [0xfe80, 0, 0, 0, 0, 0, 0, 2]

  lemma {:induction false} ZerosFrom(a: seq<nat>, i: nat, end: nat)
    requires i <= end <= |a| && (end < |a| ==> a[end] != 0)
    requires forall j :: i <= j < end ==> a[j] == 0
    ensures ZerosAt(a, i) == end - i
    decreases end - i
  {
    if i < end { ZerosFrom(a, i + 1, end); }
  }

  /** An address with a single run of zeros. */
  lemma SingleGap(head: seq<nat>, tail: seq<nat>)
    requires |head| + |tail| <= 6
    requires (forall i :: 0 <= i < |head| ==> head[i] != 0) && forall i :: 0 <= i < |tail| ==> tail[i] != 0
    ensures FormOf(Expand(head, tail)) == Form(head, Some(tail))
  {
    var a, end := Expand(head, tail), 8 - |tail|;
    forall i | |head| <= i < end ensures ZerosAt(a, i) == end - i {
      ZerosFrom(a, i, end);
    }
    assert forall i :: 0 <= i < |head| ==> a[i] != 0 && ZerosAt(a, i) == 0;
    assert forall i :: end <= i < 8 ==> a[i] != 0 && ZerosAt(a, i) == 0;
    assert ZerosAt(a, |head|) == end - |head|;
    assert LongestRun(a, 8) == |head|;
    assert a[..|head|] == head && a[end..] == tail;
  }

  /** Outside fe80::/64 two accepted pairs can print alike: fe80::1 with fe80:fe80::2, and fe80::1:fe80 with
      fe80::2. */
  lemma WiderPairsCollide()
    ensures Alike(NEAR, FAR, NEAR2, FAR2) && (NEAR, FAR) != (NEAR2, FAR2)
  {
    NearForms();
    FarForms();
    CollidersAccepted();
    CollidingCode(FormOf(NEAR), FormOf(FAR), FormOf(NEAR2), FormOf(FAR2));
    AlikeCode(NEAR, FAR, NEAR2, FAR2);
  }

  lemma NearForms()
    ensures FormOf(NEAR) == Form([0xfe80], Some([1])) && FormOf(NEAR2) == Form([0xfe80], Some([1, 0xfe80]))
  {
    SingleGap([0xfe80], [1]);
    assert NEAR == Expand([0xfe80], [1]);
    Near2Form();
  }

  lemma Near2Form()
    ensures FormOf(NEAR2) == Form([0xfe80], Some([1, 0xfe80]))
  {
    SingleGap([0xfe80], [1, 0xfe80]);
    assert NEAR2 == Expand([0xfe80], [1, 0xfe80]);
  }

  lemma FarForms()
    ensures FormOf(FAR) == Form([0xfe80, 0xfe80], Some([2])) && FormOf(FAR2) == Form([0xfe80], Some([2]))
  {
    SingleGap([0xfe80, 0xfe80], [2]);
    SingleGap([0xfe80], [2]);
    assert FAR == Expand([0xfe80, 0xfe80], [2]) && FAR2 == Expand([0xfe80], [2]);
  }

  lemma CollidersAccepted()
    ensures Accepted(Some((NEAR, FAR))) && Accepted(Some((NEAR2, FAR2))) && NEAR != NEAR2
  {
    assert NEAR[1] != FAR[1] && NEAR2[6] != FAR2[6] && NEAR[6] != NEAR2[6];
  }

  lemma CollidingCode(f: Form, g: Form, f': Form, g': Form)
    requires f == Form([0xfe80], Some([1])) && g == Form([0xfe80, 0xfe80], Some([2]))
    requires f' == Form([0xfe80], Some([1, 0xfe80])) && g' == Form([0xfe80], Some([2]))
    ensures Code(f) + Code(g) == Code(f') + Code(g')
  {
    var m := [1, 0xfe80, 0xfe80];
    assert m[..1] == [1] && m[1..] == [0xfe80, 0xfe80] && m[..2] == [1, 0xfe80] && m[2..] == [0xfe80];
    SplitCode([0xfe80], m, Some([2]), 1, 2);
  }
}
