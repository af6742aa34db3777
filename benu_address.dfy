/** How Benu's one-line address is cut into city, name and street. The
    pattern `^(.*?) *- *(.*?)( *- *(.*?))?( *- *(.*))?$` is modelled by the
    groups its leftmost-first match assigns: each of the first three groups
    runs up to the next dash with the spaces before that dash dropped, the
    spaces after a dash are absorbed, and the last group takes everything
    after the third dash. `.` does not match a newline, so an address holding
    one does not match at all. */
module BenuAddress {
  import opened Wrappers
  import opened Strings
  import opened Entity

  /** The position of the first dash, or |s| when there is none. */
  function DashAt(s: string): (d: nat)
    ensures d <= |s| && '-' !in s[..d]
    ensures d < |s| ==> s[d] == '-'
  {
    if s == [] then 0
    else if s[0] == '-' then 0
    else
      var d := DashAt(s[1..]);
      assert s[..d + 1] == [s[0]] + s[1..][..d];
      d + 1
  }

  /** Cutting at the first dash: the text before it without the spaces that
      precede the dash, and the text after it without the spaces that follow. */
  function CutAtDash(s: string): (r: Option<(string, string)>)
    ensures r.None? <==> '-' !in s
  {
    var d := DashAt(s);
    if d == |s| then None
    else Some((TrimRight(s[..d], {' '}), TrimLeft(s[d + 1..], {' '})))
  }

  /** Groups 1, 2, 4 and 6 of a match; a group that took no part is "". */
  datatype AddressGroups = AddressGroups(g1: string, g2: string, g4: string, g6: string)

  /** `FindStringSubmatch` on the address: present exactly when it has a dash
      and no newline. */
  function MatchAddress(s: string): (m: Option<AddressGroups>)
    ensures m.Some? <==> '-' in s && '\n' !in s
  {
    if '\n' in s then None
    else
      match CutAtDash(s)
      case None => None
      case Some((g1, r1)) =>
        match CutAtDash(r1)
        case None => Some(AddressGroups(g1, r1, "", ""))
        case Some((g2, r2)) =>
          match CutAtDash(r2)
          case None => Some(AddressGroups(g1, g2, r2, ""))
          case Some((g4, g6)) => Some(AddressGroups(g1, g2, g4, g6))
  }

  /** Lines 78-94 of the mapper: which fields each group count fills. Only
      `name`, `address` and `city` can change. */
  function ApplyAddress(dst: Pharmacy, address: string): (r: Pharmacy)
    ensures r == dst.(name := r.name, address := r.address, city := r.city)
  {
    match MatchAddress(address)
    case None => dst
    case Some(g) =>
      if g.g6 != "" then dst.(city := g.g1, name := g.g4, address := g.g6 + ", " + g.g2)
      else if g.g4 != "" then dst.(city := g.g1, name := g.g2, address := g.g4)
      else if g.g2 != "" then
        var named := dst.(name := g.g1);
        var data := Split(g.g2, ',');
        if |data| == 2 then named.(address := Trim(data[0], {' '}), city := Trim(data[1], {' '}))
        else named
      else dst
  }

  /** A dash with `gap.0` spaces before it and `gap.1` after it. */
  function Sep(gap: (nat, nat)): string
  {
    Spaces(gap.0) + "-" + Spaces(gap.1)
  }

  /** A segment between separators: non-empty, no dash, no newline, and no
      space at either end. */
  predicate Segment(x: string)
  {
    x != [] && x[0] != ' ' && x[|x| - 1] != ' ' && '-' !in x && '\n' !in x
  }

  /** The text after the last separator: non-empty, no newline, not starting
      with a space. */
  predicate Tail(x: string)
  {
    x != [] && x[0] != ' ' && '\n' !in x
  }

  lemma DashAtIs(s: string, d: nat)
    requires d < |s| && s[d] == '-' && '-' !in s[..d]
    ensures DashAt(s) == d
  {
  }

  lemma TrimRightSpaces(a: string, n: nat)
    requires a == [] || a[|a| - 1] != ' '
    ensures TrimRight(a + Spaces(n), {' '}) == a
  {
    var s := a + Spaces(n);
    var r := TrimRight(s, {' '});
    assert forall i :: |a| <= i < |s| ==> s[i] == ' ';
    assert a != [] ==> s[|a| - 1] == a[|a| - 1];
    assert |r| == |a|;
    assert s[..|a|] == a;
  }

  lemma TrimLeftSpaces(n: nat, b: string)
    requires b == [] || b[0] != ' '
    ensures TrimLeft(Spaces(n) + b, {' '}) == b
  {
    var s := Spaces(n) + b;
    var r := TrimLeft(s, {' '});
    assert forall i :: 0 <= i < n ==> s[i] == ' ';
    assert b != [] ==> s[n] == b[0];
    assert |r| == |b|;
    assert s[n..] == b;
  }

  /** The spaces around the first dash are absorbed: cutting `a - rest` gives
      back `a` and `rest` whatever the number of spaces. */
  lemma CutAtSep(a: string, gap: (nat, nat), rest: string)
    requires '-' !in a && (a == [] || a[|a| - 1] != ' ')
    requires rest == [] || rest[0] != ' '
    ensures CutAtDash(a + Sep(gap) + rest) == Some((a, rest))
  {
    var s := a + Sep(gap) + rest;
    var d := |a| + gap.0;
    assert s == (a + Spaces(gap.0)) + ['-'] + (Spaces(gap.1) + rest);
    assert s[..d] == a + Spaces(gap.0);
    assert s[d + 1..] == Spaces(gap.1) + rest;
    assert '-' !in Spaces(gap.0);
    DashAtIs(s, d);
    TrimRightSpaces(a, gap.0);
    TrimLeftSpaces(gap.1, rest);
  }

  lemma NoNewline(a: string, gap: (nat, nat), rest: string)
    requires '\n' !in a && '\n' !in rest
    ensures '\n' !in a + Sep(gap) + rest
  {
    assert '\n' !in Spaces(gap.0) && '\n' !in Spaces(gap.1);
    var s := a + Sep(gap) + rest;
    assert s == a + (Spaces(gap.0) + "-" + Spaces(gap.1)) + rest;
  }

  /** Three separators: `City - District - Name - Street` gives city, name and
      "Street, District"; the street part may itself hold dashes. */
  lemma ThreeSeparators(dst: Pharmacy, a: string, b: string, c: string, d: string,
                        s1: (nat, nat), s2: (nat, nat), s3: (nat, nat))
    requires Segment(a) && Segment(b) && Segment(c) && Tail(d)
    ensures var address := a + Sep(s1) + b + Sep(s2) + c + Sep(s3) + d;
            MatchAddress(address) == Some(AddressGroups(a, b, c, d)) &&
            ApplyAddress(dst, address) == dst.(city := a, name := c, address := d + ", " + b)
  {
    var r2 := c + Sep(s3) + d;
    var r1 := b + Sep(s2) + r2;
    var address := a + Sep(s1) + b + Sep(s2) + c + Sep(s3) + d;
    SepsAssociate(a, b, c, d, s1, s2, s3);
    assert r1[0] == b[0] && r2[0] == c[0];
    CutAtSep(c, s3, d);
    CutAtSep(b, s2, r2);
    CutAtSep(a, s1, r1);
    NoNewline(c, s3, d);
    NoNewline(b, s2, r2);
    NoNewline(a, s1, r1);
    MatchOfCuts(address, a, r1, b, r2, c, d);
  }

  /** The address read from the right: the rest after each separator. */
  lemma SepsAssociate(a: string, b: string, c: string, d: string, s1: (nat, nat), s2: (nat, nat), s3: (nat, nat))
    ensures a + Sep(s1) + b + Sep(s2) + c + Sep(s3) + d == a + Sep(s1) + (b + Sep(s2) + (c + Sep(s3) + d))
  {
  }

  /** Three successful cuts and no newline are a match with all four groups. */
  lemma MatchOfCuts(s: string, g1: string, r1: string, g2: string, r2: string, g4: string, g6: string)
    requires '\n' !in s
    requires CutAtDash(s) == Some((g1, r1)) && CutAtDash(r1) == Some((g2, r2)) && CutAtDash(r2) == Some((g4, g6))
    ensures MatchAddress(s) == Some(AddressGroups(g1, g2, g4, g6))
  {
  }

  /** Two separators: `City - Name - Street`. */
  lemma TwoSeparators(dst: Pharmacy, a: string, b: string, c: string, s1: (nat, nat), s2: (nat, nat))
    requires Segment(a) && Segment(b) && Tail(c) && '-' !in c
    ensures var address := a + Sep(s1) + b + Sep(s2) + c;
            MatchAddress(address) == Some(AddressGroups(a, b, c, "")) &&
            ApplyAddress(dst, address) == dst.(city := a, name := b, address := c)
  {
    var r1 := b + Sep(s2) + c;
    var address := a + Sep(s1) + b + Sep(s2) + c;
    assert address == a + Sep(s1) + r1;
    CutAtSep(b, s2, c);
    CutAtSep(a, s1, r1);
    NoNewline(b, s2, c);
    NoNewline(a, s1, r1);
  }

  /** One separator: `Name - Street, City` gives the name, and the street and
      city trimmed when the rest has exactly one comma. */
  lemma OneSeparator(dst: Pharmacy, a: string, b: string, s1: (nat, nat))
    requires Segment(a) && Tail(b) && '-' !in b
    ensures var address := a + Sep(s1) + b;
            var named := dst.(name := a);
            var data := Split(b, ',');
            MatchAddress(address) == Some(AddressGroups(a, b, "", "")) &&
            ApplyAddress(dst, address) ==
              (if |data| == 2 then named.(address := Trim(data[0], {' '}), city := Trim(data[1], {' '}))
               else named)
  {
    CutAtSep(a, s1, b);
    NoNewline(a, s1, b);
  }

  /** The one-separator rest "street, town" (one comma) fills street and city. */
  lemma StreetAndTown(street: string, town: string)
    requires ',' !in street && ',' !in town
    ensures Split(street + "," + town, ',') == [street, town]
  {
    var s := street + "," + town;
    assert s[..|street|] == street;
    assert s[|street| + 1..] == town;
    SplitFirst(s, ',', |street|);
    SplitFirst(town, ',', |town|);
    assert town[..|town|] == town;
  }

  /** An address with no dash, or with a newline, leaves name, street and city
      as they were. */
  lemma UnmatchedAddress(dst: Pharmacy, address: string)
    requires '-' !in address || '\n' in address
    ensures ApplyAddress(dst, address) == dst
  {
  }
}
