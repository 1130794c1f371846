/** Substitution of numbered placeholders: one argument after the other, against all at once. */
module Placeholders {
  import opened Prelude

  function Placeholder(k: nat): string { "{" + Decimal(k) + "}" }

  predicate At(s: string, pat: string, pos: nat) {
    pos + |pat| <= |s| && forall j :: 0 <= j < |pat| ==> s[pos + j] == pat[j]
  }

  /** Every occurrence replaced, left to right; what is put in is not looked at again. */
  function ReplaceAll(s: string, pat: string, arg: string): string
    requires pat != ""
  {
    if s == "" then ""
    else if At(s, pat, 0) then arg + ReplaceAll(s[|pat|..], pat, arg)
    else [s[0]] + ReplaceAll(s[1..], pat, arg)
  }

  function ApplyFrom(s: string, args: seq<string>, i: nat): string
    requires i <= |args|
    decreases |args| - i
  {
    if i == |args| then s else ApplyFrom(ReplaceAll(s, Placeholder(i), args[i]), args, i + 1)
  }

  lemma SkipOne(s: string, pat: string, arg: string, from: nat)
    requires pat != "" && from < |s| && !At(s, pat, from)
    ensures ReplaceAll(s[from..], pat, arg) == [s[from]] + ReplaceAll(s[from + 1..], pat, arg)
  {
    assert s[from..][1..] == s[from + 1..];
  }

  lemma {:induction false} SkipTo(s: string, pat: string, arg: string, from: nat, pos: nat)
    requires pat != "" && from <= pos <= |s|
    requires forall j :: from <= j < pos ==> !At(s, pat, j)
    ensures ReplaceAll(s[from..], pat, arg) == s[from..pos] + ReplaceAll(s[pos..], pat, arg)
    decreases pos - from
  {
    if from == pos {
      assert s[from..pos] == "";
    } else {
      SkipTo(s, pat, arg, from + 1, pos);
      SkipOne(s, pat, arg, from);
      assert s[from..pos] == [s[from]] + s[from + 1..pos];
      Reassociate([s[from]], s[from + 1..pos], ReplaceAll(s[pos..], pat, arg));
    }
  }

  lemma ReplaceHere(s: string, pat: string, arg: string, pos: nat)
    requires pat != "" && At(s, pat, pos)
    ensures ReplaceAll(s[pos..], pat, arg) == arg + ReplaceAll(s[pos + |pat|..], pat, arg)
  {
    assert s[pos..][|pat|..] == s[pos + |pat|..];
  }

  lemma Replaced(s: string, pat: string, arg: string, pos: nat, found: nat)
    requires pat != "" && pos <= found && At(s, pat, found) && forall j :: pos <= j < found ==> !At(s, pat, j)
    ensures s[..found] + arg + ReplaceAll(s[found + |pat|..], pat, arg) == s[..pos] + ReplaceAll(s[pos..], pat, arg)
  {
    var tail := s[found + |pat|..];
    SkipTo(s, pat, arg, pos, found);
    ReplaceHere(s, pat, arg, found);
    Joined(s[..pos], s[pos..found], arg, ReplaceAll(tail, pat, arg));
    assert s[..pos] + s[pos..found] == s[..found];
  }

  lemma Joined(a: string, b: string, c: string, d: string)
    ensures a + (b + (c + d)) == a + b + c + d
  {}

  lemma Spliced(front: string, arg: string, tail: string)
    ensures var next := front + arg + tail;
            next[..|front| + |arg|] == front + arg && next[|front| + |arg|..] == tail
  {}

  /** The first occurrence at or after a position; `|s|` when there is none. */
  method Find(s: string, pat: string, from: nat) returns (pos: nat)
    requires pat != "" && from <= |s|
    ensures from <= pos <= |s| && forall j :: from <= j < pos ==> !At(s, pat, j)
    ensures pos < |s| ==> At(s, pat, pos)
  {
    pos := from;
    while pos < |s| && !At(s, pat, pos)
      invariant from <= pos <= |s| && forall j :: from <= j < pos ==> !At(s, pat, j)
    {
      pos := pos + 1;
    }
  }

  /** The inner loop: it ends for every template and argument, also one that holds the placeholder. */
  method ReplaceOne(tmpl: string, placeholder: string, arg: string) returns (result: string)
    requires placeholder != ""
    ensures result == ReplaceAll(tmpl, placeholder, arg)
  {
    result := tmpl;
    var pos: nat := 0;
    assert tmpl[0..] == tmpl;
    while true
      invariant pos <= |result|
      invariant result[..pos] + ReplaceAll(result[pos..], placeholder, arg) == ReplaceAll(tmpl, placeholder, arg)
      decreases |result| - pos
    {
      var found := Find(result, placeholder, pos);
      if found == |result| {
        SkipTo(result, placeholder, arg, pos, found);
        break;
      }
      Replaced(result, placeholder, arg, pos, found);
      Spliced(result[..found], arg, result[found + |placeholder|..]);
      result := result[..found] + arg + result[found + |placeholder|..];
      pos := found + |arg|;
    }
  }

  method ApplyPlaceholders(tmpl: string, args: seq<string>) returns (result: string)
    ensures result == ApplyFrom(tmpl, args, 0)
  {
    result := tmpl;
    for i := 0 to |args|
      invariant ApplyFrom(result, args, i) == ApplyFrom(tmpl, args, 0)
    {
      result := ReplaceOne(result, Placeholder(i), args[i]);
    }
  }

  // ----- one after the other, or all at once -----

  datatype Segment = Text(text: string) | Hole(k: nat)

  ghost predicate NoOpen(s: string) { forall i :: 0 <= i < |s| ==> s[i] != '{' }

  ghost predicate PlainTexts(segs: seq<Segment>) {
    forall i :: 0 <= i < |segs| && segs[i].Text? ==> NoOpen(segs[i].text)
  }

  /** The template with the placeholders below `upTo` filled in, all at once. */
  function Filled(segs: seq<Segment>, args: seq<string>, upTo: nat): string
    requires upTo <= |args|
  {
    if segs == [] then ""
    else FilledOne(segs[0], args, upTo) + Filled(segs[1..], args, upTo)
  }

  function FilledOne(seg: Segment, args: seq<string>, upTo: nat): string
    requires upTo <= |args|
  {
    match seg
    case Text(text) => text
    case Hole(k) => if k < upTo then args[k] else Placeholder(k)
  }

  /** From position `pos` on, the string agrees with the pattern as far as both go. */
  ghost predicate Agrees(t: string, pos: nat, pat: string) {
    forall j :: 0 <= j < |pat| && pos + j < |t| ==> t[pos + j] == pat[j]
  }

  /** The string holds the pattern, or ends in a beginning of it. */
  ghost predicate Touches(t: string, pat: string) { exists pos :: 0 <= pos < |t| && Agrees(t, pos, pat) }

  lemma PlainNeverTouches(t: string, pat: string)
    requires NoOpen(t) && pat != "" && pat[0] == '{'
    ensures !Touches(t, pat)
  {
    forall pos | 0 <= pos < |t| ensures !Agrees(t, pos, pat) {
      assert t[pos + 0] != pat[0];
    }
  }

  lemma {:induction false} ReplaceAfter(t: string, s: string, pat: string, arg: string)
    requires pat != "" && !Touches(t, pat)
    ensures ReplaceAll(t + s, pat, arg) == t + ReplaceAll(s, pat, arg)
    decreases |t|
  {
    if t == "" {
      assert t + s == s;
    } else {
      assert (t + s)[1..] == t[1..] + s;
      assert !Agrees(t, 0, pat);
      forall pos | 0 <= pos < |t[1..]| ensures !Agrees(t[1..], pos, pat) {
        assert !Agrees(t, pos + 1, pat);
        var j :| 0 <= j < |pat| && pos + 1 + j < |t| && t[pos + 1 + j] != pat[j];
        assert t[1..][pos + j] != pat[j];
      }
      ReplaceAfter(t[1..], s, pat, arg);
      var j :| 0 <= j < |pat| && j < |t| && t[j] != pat[j];
      assert (t + s)[0 + j] != pat[j];
    }
  }

  lemma ReplaceAtHole(k: nat, s: string, arg: string)
    ensures ReplaceAll(Placeholder(k) + s, Placeholder(k), arg) == arg + ReplaceAll(s, Placeholder(k), arg)
  {
    var pat := Placeholder(k);
    assert At(pat + s, pat, 0) && (pat + s)[|pat|..] == s;
  }

  /** Another number's placeholder is not an occurrence, whatever follows it. */
  lemma OtherHole(k: nat, i: nat, s: string)
    requires k != i
    ensures !At(Placeholder(k) + s, Placeholder(i), 0)
  {
    var (a, b) := (Decimal(k), Decimal(i));
    var (hole, pat) := (Placeholder(k) + s, Placeholder(i));
    assert forall j :: 0 <= j < |a| ==> hole[j + 1] == a[j];
    assert forall j :: 0 <= j < |b| ==> pat[j + 1] == b[j];
    assert |a| < |b| ==> pat[|a| + 1] == b[|a|];
    assert |b| < |a| ==> hole[|b| + 1] == a[|b|];
    assert hole[|a| + 1] == '}' && pat[|b| + 1] == '}';
    if At(hole, pat, 0) && |a| == |b| {
      assert forall j :: 0 <= j < |a| ==> a[j] == hole[j + 1] == pat[j + 1] == b[j];
      assert a == b;
      DecimalInjective(k, i);
    }
  }

  lemma ReplaceOverHole(k: nat, i: nat, s: string, arg: string)
    requires k != i
    ensures ReplaceAll(Placeholder(k) + s, Placeholder(i), arg) == Placeholder(k) + ReplaceAll(s, Placeholder(i), arg)
  {
    OtherHole(k, i, s);
    var rest := Decimal(k) + "}";
    assert Placeholder(k) == "{" + rest;
    Reassociate("{", rest, s);
    ReplaceBehind('{', rest + s, Placeholder(i), arg);
    PlainNeverTouches(rest, Placeholder(i));
    ReplaceAfter(rest, s, Placeholder(i), arg);
    Reassociate("{", rest, ReplaceAll(s, Placeholder(i), arg));
  }

  lemma ReplaceBehind(c: char, s: string, pat: string, arg: string)
    requires pat != "" && !At([c] + s, pat, 0)
    ensures ReplaceAll([c] + s, pat, arg) == [c] + ReplaceAll(s, pat, arg)
  {
    assert ([c] + s)[1..] == s;
  }

  /** One round of the loop fills in exactly one placeholder. */
  lemma {:induction false} Round(segs: seq<Segment>, args: seq<string>, i: nat)
    requires i < |args| && PlainTexts(segs)
    requires forall j :: 0 <= j < i ==> !Touches(args[j], Placeholder(i))
    ensures ReplaceAll(Filled(segs, args, i), Placeholder(i), args[i]) == Filled(segs, args, i + 1)
    decreases |segs|
  {
    if segs != [] {
      var (seg, rest) := (segs[0], Filled(segs[1..], args, i));
      Round(segs[1..], args, i);
      if seg.Text? || seg.k < i {
        if seg.Text? {
          PlainNeverTouches(seg.text, Placeholder(i));
        }
        ReplaceAfter(FilledOne(seg, args, i), rest, Placeholder(i), args[i]);
      } else if seg.k == i {
        ReplaceAtHole(i, rest, args[i]);
      } else {
        ReplaceOverHole(seg.k, i, rest, args[i]);
      }
    }
  }

  lemma {:induction false} ReplaceBySelf(s: string, pat: string)
    requires pat != ""
    ensures ReplaceAll(s, pat, pat) == s
  {
    if s != "" {
      if At(s, pat, 0) {
        ReplaceBySelf(s[|pat|..], pat);
        assert s[..|pat|] == pat && s[..|pat|] + s[|pat|..] == s;
      } else {
        ReplaceBySelf(s[1..], pat);
      }
    }
  }

  lemma {:induction false} OwnPlaceholder(segs: seq<Segment>, args: seq<string>, i: nat)
    requires i < |args| && args[i] == Placeholder(i)
    ensures Filled(segs, args, i) == Filled(segs, args, i + 1)
  {
    if segs != [] {
      OwnPlaceholder(segs[1..], args, i);
    }
  }

  /** No argument holds, or ends in a beginning of, the placeholder of a later one, unless that later
      argument is its own placeholder. */
  ghost predicate Independent(args: seq<string>) {
    forall i, j :: 0 <= j < i < |args| ==> !Touches(args[j], Placeholder(i)) || args[i] == Placeholder(i)
  }

  /** Sequential substitution is simultaneous substitution for every template whose opening braces
      all belong to placeholders, when the arguments are independent. */
  lemma {:induction false} SequentialIsSimultaneous(segs: seq<Segment>, args: seq<string>, i: nat)
    requires i <= |args| && PlainTexts(segs) && Independent(args)
    ensures ApplyFrom(Filled(segs, args, i), args, i) == Filled(segs, args, |args|)
    decreases |args| - i
  {
    if i < |args| {
      if args[i] == Placeholder(i) {
        ReplaceBySelf(Filled(segs, args, i), args[i]);
        OwnPlaceholder(segs, args, i);
      } else {
        Round(segs, args, i);
      }
      SequentialIsSimultaneous(segs, args, i + 1);
    }
  }

  /** Arguments without an opening brace are independent, whatever the last one holds; in
      particular a single argument always is. */
  lemma BraceFreeIsIndependent(args: seq<string>)
    requires forall j :: 0 <= j < |args| - 1 ==> NoOpen(args[j])
    ensures Independent(args)
  {
    forall i, j | 0 <= j < i < |args| ensures !Touches(args[j], Placeholder(i)) {
      PlainNeverTouches(args[j], Placeholder(i));
    }
  }

  lemma {:induction false} LengthMoves(s: string, pat: string, arg: string)
    requires pat != ""
    ensures |arg| >= |pat| ==> |ReplaceAll(s, pat, arg)| >= |s|
    ensures |arg| <= |pat| ==> |ReplaceAll(s, pat, arg)| <= |s|
  {
    if s != "" {
      if At(s, pat, 0) {
        LengthMoves(s[|pat|..], pat, arg);
      } else {
        LengthMoves(s[1..], pat, arg);
      }
    }
  }

  /** Where the pattern occurs, putting in anything else changes the string. */
  lemma {:induction false} ReplacingChanges(s: string, pat: string, arg: string, pos: nat)
    requires pat != "" && At(s, pat, pos) && arg != pat
    ensures ReplaceAll(s, pat, arg) != s
    decreases pos
  {
    if At(s, pat, 0) {
      var tail := ReplaceAll(s[|pat|..], pat, arg);
      LengthMoves(s[|pat|..], pat, arg);
      if |arg| == |pat| {
        var j :| 0 <= j < |pat| && arg[j] != pat[j];
        assert (arg + tail)[0 + j] != s[0 + j];
      }
    } else {
      assert At(s[1..], pat, pos - 1);
      ReplacingChanges(s[1..], pat, arg, pos - 1);
      assert ([s[0]] + ReplaceAll(s[1..], pat, arg))[1..] == ReplaceAll(s[1..], pat, arg);
    }
  }

  /** A plain text that completes the placeholder the argument touches. */
  lemma Completion(t: string, pos: nat, k: nat) returns (text: string)
    requires pos < |t| && Agrees(t, pos, Placeholder(k))
    ensures NoOpen(text) && At(t + text, Placeholder(k), pos)
  {
    var pat := Placeholder(k);
    text := if |t| - pos < |pat| then pat[|t| - pos..] else "";
    assert forall j :: 0 <= j < |pat| ==> (t + text)[pos + j] == pat[j];
  }

  lemma FillFirst(text: string, a: string, b: string)
    requires NoOpen(text)
    ensures var (segs, args) := ([Hole(0), Text(text)], [a, b]);
            Filled(segs, args, 0) == Placeholder(0) + text && Filled(segs, args, 2) == a + text &&
            ApplyFrom(Filled(segs, args, 0), args, 0) == ReplaceAll(a + text, Placeholder(1), b)
  {
    var (segs, args) := ([Hole(0), Text(text)], [a, b]);
    assert segs[1..] == [Text(text)] && [Text(text)][1..] == [];
    assert forall upTo: nat :: upTo <= 2 ==> Filled([Text(text)], args, upTo) == text + "" == text;
    ReplaceAtHole(0, text, a);
    PlainNeverTouches(text, Placeholder(0));
    ReplaceAfter(text, "", Placeholder(0), a);
    assert text + "" == text;
    assert ApplyFrom(Placeholder(0) + text, args, 0) == ApplyFrom(a + text, args, 1)
        == ApplyFrom(ReplaceAll(a + text, Placeholder(1), b), args, 2);
  }

  /** With two arguments the condition is exact: every template comes out as if filled at once if
      and only if the arguments are independent. */
  lemma TwoArgumentsExact(a: string, b: string)
    ensures (forall segs :: PlainTexts(segs) ==>
               ApplyFrom(Filled(segs, [a, b], 0), [a, b], 0) == Filled(segs, [a, b], 2))
            <==> Independent([a, b])
  {
    var args := [a, b];
    if Independent(args) {
      forall segs | PlainTexts(segs) ensures ApplyFrom(Filled(segs, args, 0), args, 0) == Filled(segs, args, 2) {
        SequentialIsSimultaneous(segs, args, 0);
      }
    } else {
      var i, j :| 0 <= j < i < |args| && Touches(args[j], Placeholder(i)) && args[i] != Placeholder(i);
      var pos :| 0 <= pos < |a| && Agrees(a, pos, Placeholder(1));
      var text := Completion(a, pos, 1);
      ReplacingChanges(a + text, Placeholder(1), b, pos);
      FillFirst(text, a, b);
      assert PlainTexts([Hole(0), Text(text)]);
    }
  }

  // ----- three arguments: a dependence can cancel out -----

  const Tangled := ["{1}{2}", "{1", "}{2}"]

  /** The template after the second round with these arguments. */
  function HalfWay(segs: seq<Segment>): string {
    if segs == [] then ""
    else
      (match segs[0]
       case Text(text) => text
       case Hole(k) => if k == 0 then "{1" + Placeholder(2) else if k == 1 then "{1" else Placeholder(k))
      + HalfWay(segs[1..])
  }

  lemma Spelled()
    ensures Placeholder(1) == "{1}" && Placeholder(2) == "{2}" && Tangled[0] == Placeholder(1) + Placeholder(2)
    ensures !Touches("{1", Placeholder(2)) && Touches(Tangled[0], Placeholder(1))
  {
    assert Decimal(1) == "1" && Decimal(2) == "2";
    assert Agrees(Tangled[0], 0, Placeholder(1));
    forall pos | 0 <= pos < 2 ensures !Agrees("{1", pos, "{2}") {
      assert pos == 0 ==> "{1"[0 + 1] != "{2}"[1];
      assert pos == 1 ==> "{1"[1 + 0] != "{2}"[0];
    }
  }

  lemma {:induction false} SecondRound(segs: seq<Segment>)
    requires PlainTexts(segs)
    ensures ReplaceAll(Filled(segs, Tangled, 1), Placeholder(1), "{1") == HalfWay(segs)
  {
    if segs != [] {
      var (seg, rest) := (segs[0], Filled(segs[1..], Tangled, 1));
      SecondRound(segs[1..]);
      Spelled();
      if seg.Text? {
        PlainNeverTouches(seg.text, Placeholder(1));
        ReplaceAfter(seg.text, rest, Placeholder(1), "{1");
      } else if seg.k == 0 {
        Reassociate(Placeholder(1), Placeholder(2), rest);
        ReplaceAtHole(1, Placeholder(2) + rest, "{1");
        ReplaceOverHole(2, 1, rest, "{1");
        Reassociate("{1", Placeholder(2), HalfWay(segs[1..]));
      } else if seg.k == 1 {
        ReplaceAtHole(1, rest, "{1");
      } else {
        ReplaceOverHole(seg.k, 1, rest, "{1");
      }
    }
  }

  lemma {:induction false} ThirdRound(segs: seq<Segment>)
    requires PlainTexts(segs)
    ensures ReplaceAll(HalfWay(segs), Placeholder(2), "}{2}") == Filled(segs, Tangled, 3)
  {
    if segs != [] {
      var (seg, rest) := (segs[0], HalfWay(segs[1..]));
      ThirdRound(segs[1..]);
      Spelled();
      if seg.Text? {
        PlainNeverTouches(seg.text, Placeholder(2));
        ReplaceAfter(seg.text, rest, Placeholder(2), "}{2}");
      } else if seg.k == 0 {
        Reassociate("{1", Placeholder(2), rest);
        ReplaceAfter("{1", Placeholder(2) + rest, Placeholder(2), "}{2}");
        ReplaceAtHole(2, rest, "}{2}");
        Reassociate("{1", "}{2}", Filled(segs[1..], Tangled, 3));
        assert "{1" + "}{2}" == Tangled[0];
      } else if seg.k == 1 {
        ReplaceAfter("{1", rest, Placeholder(2), "}{2}");
      } else if seg.k == 2 {
        ReplaceAtHole(2, rest, "}{2}");
      } else {
        ReplaceOverHole(seg.k, 2, rest, "}{2}");
      }
    }
  }

  lemma ThreeRounds(s: string, args: seq<string>)
    requires |args| == 3
    ensures var one := ReplaceAll(s, Placeholder(0), args[0]);
            var two := ReplaceAll(one, Placeholder(1), args[1]);
            ApplyFrom(s, args, 0) == ReplaceAll(two, Placeholder(2), args[2])
  {
    var one := ReplaceAll(s, Placeholder(0), args[0]);
    var two := ReplaceAll(one, Placeholder(1), args[1]);
    var three := ReplaceAll(two, Placeholder(2), args[2]);
    assert ApplyFrom(three, args, 3) == three;
    assert ApplyFrom(two, args, 2) == ApplyFrom(three, args, 3);
    assert ApplyFrom(one, args, 1) == ApplyFrom(two, args, 2);
  }

  lemma TangledDepends()
    ensures !Independent(Tangled)
  {
    Spelled();
    assert Touches(Tangled[0], Placeholder(1)) && |Tangled[1]| == 2;
  }

  lemma TangledComesOutRight(segs: seq<Segment>)
    requires PlainTexts(segs)
    ensures ApplyFrom(Filled(segs, Tangled, 0), Tangled, 0) == Filled(segs, Tangled, 3)
  {
    Round(segs, Tangled, 0);
    SecondRound(segs);
    ThirdRound(segs);
    ThreeRounds(Filled(segs, Tangled, 0), Tangled);
  }

  /** With three arguments independence is not needed: these are not independent, and yet every
      template comes out right, since the third round puts back what the second broke. */
  lemma DependenceCanCancel(segs: seq<Segment>)
    requires PlainTexts(segs)
    ensures !Independent(Tangled)
    ensures ApplyFrom(Filled(segs, Tangled, 0), Tangled, 0) == Filled(segs, Tangled, 3)
  {
    TangledDepends();
    TangledComesOutRight(segs);
  }

  /** An earlier argument that spells a later placeholder is itself substituted. */
  lemma ArgumentIsRescanned(x: string)
    requires x != "{1}"
    ensures ApplyFrom(Filled([Hole(0)], ["{1}", x], 0), ["{1}", x], 0) == x
    ensures Filled([Hole(0)], ["{1}", x], 2) == "{1}"
  {
    var args := ["{1}", x];
    assert Decimal(0) == "0" && Decimal(1) == "1";
    assert Placeholder(0) == "{0}" && Placeholder(1) == "{1}";
    assert Filled([], args, 0) == "" && Filled([], args, 2) == "";
    assert [Hole(0)][1..] == [];
    assert Filled([Hole(0)], args, 0) == Placeholder(0) + "";
    assert Filled([Hole(0)], args, 2) == "{1}" + "";
    ReplaceAtHole(0, "", "{1}");
    ReplaceAtHole(1, "", x);
    assert Placeholder(0) + "" == Placeholder(0) && Placeholder(1) + "" == Placeholder(1);
    assert ApplyFrom(Placeholder(0), args, 0) == ApplyFrom("{1}", args, 1) == ApplyFrom(x, args, 2) == x;
  }
}
