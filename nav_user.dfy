/** The sidebar's user menu: the initials shown when there is no avatar,
    and the unread-notification count. */
module NavUser {
  import opened Seqs
  import opened Strings
  import opened JsValue

  /** `n[0]` in the pipeline: the first character, `undefined` (which
      `join` writes as nothing) for an empty word. */
  function FirstChar(w: string): (r: string)
    ensures w == "" ==> r == ""
    ensures w != "" ==> r == [w[0]]
  {
    if w == "" then "" else [w[0]]
  }

  predicate NonEmpty(w: string) { w != "" }

  /** The non-empty space-separated words of a name. */
  function Words(name: string): (r: seq<string>)
    ensures forall k :: 0 <= k < |r| ==> r[k] != "" && ' ' !in r[k]
  {
    Filter(NonEmpty, Split(name, ' '))
  }

  /** The first character of each word, in order. */
  function Firsts(ws: seq<string>): (r: string)
    requires forall k :: 0 <= k < |ws| ==> ws[k] != ""
    ensures |r| == |ws|
    ensures forall k :: 0 <= k < |ws| ==> r[k] == ws[k][0]
  {
    seq(|ws|, k requires 0 <= k < |ws| => ws[k][0])
  }

  /** Joining with the empty separator concatenates. */
  lemma JoinEmptyCons(xs: seq<string>)
    requires |xs| >= 1
    ensures Join(xs, "") == xs[0] + Join(xs[1..], "")
  {
  }

  lemma FirstsPrepend(w: string, ws: seq<string>)
    requires w != "" && forall k :: 0 <= k < |ws| ==> ws[k] != ""
    ensures Firsts([w] + ws) == [w[0]] + Firsts(ws)
  {
    var l, r := Firsts([w] + ws), [w[0]] + Firsts(ws);
    forall k | 0 <= k < |l| ensures l[k] == r[k] {
      if k > 0 {
        assert ([w] + ws)[k] == ws[k - 1];
      }
    }
  }

  /** One more piece in front adds its first character, if it has one. */
  lemma FirstsCons(w: string, ws: seq<string>)
    ensures Firsts(Filter(NonEmpty, [w] + ws)) == FirstChar(w) + Firsts(Filter(NonEmpty, ws))
  {
    var xs := [w] + ws;
    assert xs[0] == w && xs[1..] == ws;
    var rest := Filter(NonEmpty, ws);
    assert Filter(NonEmpty, xs) == (if NonEmpty(w) then [w] else []) + rest;
    if w != "" {
      FirstsPrepend(w, rest);
    } else {
      assert Filter(NonEmpty, xs) == rest;
    }
  }

  /** The joined first characters of the pieces are the first characters
      of the non-empty pieces. */
  lemma {:induction false} JoinedFirsts(ws: seq<string>)
    ensures Join(Map(FirstChar, ws), "") == Firsts(Filter(NonEmpty, ws))
    decreases |ws|
  {
    if |ws| > 0 {
      var m := Map(FirstChar, ws);
      calc {
        Join(m, "");
        { JoinEmptyCons(m); }
        m[0] + Join(m[1..], "");
        { assert m[1..] == Map(FirstChar, ws[1..]); }
        FirstChar(ws[0]) + Join(Map(FirstChar, ws[1..]), "");
        { JoinedFirsts(ws[1..]); }
        FirstChar(ws[0]) + Firsts(Filter(NonEmpty, ws[1..]));
        { FirstsCons(ws[0], ws[1..]); assert [ws[0]] + ws[1..] == ws; }
        Firsts(Filter(NonEmpty, ws));
      }
    }
  }

  /** `initials`: split the name at spaces, take each piece's first
      character, join, upper-case, keep the first two. The result is the
      upper-cased first character of each of the first two words. */
  function Initials(name: string): (r: string)
    ensures |r| == if |Words(name)| < 2 then |Words(name)| else 2
    ensures forall k :: 0 <= k < |r| ==> r[k] == UpperChar(Words(name)[k][0])
  {
    JoinedFirsts(Split(name, ' '));
    Take(ToUpper(Join(Map(FirstChar, Split(name, ' ')), "")), 2)
  }

  /** Two names with the same words have the same initials. */
  lemma SameWordsSameInitials(a: string, b: string)
    requires Words(a) == Words(b)
    ensures Initials(a) == Initials(b)
  {
  }

  /** Two words joined by one space split into those two words. */
  lemma SplitTwoWords(a: string, b: string)
    requires ' ' !in a && ' ' !in b
    ensures Split(a + " " + b, ' ') == [a, b]
  {
    assert a + " " + b == a + [' '] + b;
    SplitAround(a, ' ', b);
    SplitNoSeparator(a, ' ');
    SplitNoSeparator(b, ' ');
  }

  lemma JaneDoeWords()
    ensures Words("Jane Doe") == ["Jane", "Doe"]
  {
    assert "Jane Doe" == "Jane" + " " + "Doe";
    assert ' ' !in "Jane" && ' ' !in "Doe";
    SplitTwoWords("Jane", "Doe");
    FilterAll(NonEmpty, ["Jane", "Doe"]);
  }

  /** `"Jane Doe"` gives `"JD"`. */
  lemma JaneDoe()
    ensures Initials("Jane Doe") == "JD"
  {
    JaneDoeWords();
    var r := Initials("Jane Doe");
    assert |r| == 2 && r[0] == UpperChar('J') && r[1] == UpperChar('D');
  }

  /** A single word gives one character. */
  lemma SingleWord(w: string)
    requires w != "" && ' ' !in w
    ensures Initials(w) == [UpperChar(w[0])]
  {
    SplitNoSeparator(w, ' ');
    assert Words(w) == [w];
  }

  /** An empty name gives no initials. */
  lemma EmptyName()
    ensures Initials("") == ""
  {
    assert Split("", ' ') == [""];
    assert Words("") == [];
  }

  /** Splitting after a leading space adds one empty piece in front. */
  lemma SplitLeadingSpace(s: string)
    ensures Split(" " + s, ' ') == [""] + Split(s, ' ')
  {
    assert (" " + s)[1..] == s;
  }

  /** A second space between two parts of the name adds only an empty piece. */
  lemma {:induction false} ExtraSpaceWords(a: string, b: string)
    ensures Words(a + "  " + b) == Words(a + " " + b)
  {
    var sa, sb := Split(a, ' '), Split(b, ' ');
    assert a + "  " + b == a + [' '] + (" " + b);
    assert a + " " + b == a + [' '] + b;
    SplitAround(a, ' ', " " + b);
    SplitAround(a, ' ', b);
    SplitLeadingSpace(b);
    assert Split(a + "  " + b, ' ') == sa + ([""] + sb);
    assert Split(a + " " + b, ' ') == sa + sb;
    FilterAppend(NonEmpty, sa, [""] + sb);
    FilterAppend(NonEmpty, [""], sb);
    FilterAppend(NonEmpty, sa, sb);
  }

  /** ... and so changes nothing in the initials. */
  lemma ExtraSpace(a: string, b: string)
    ensures Initials(a + "  " + b) == Initials(a + " " + b)
  {
    ExtraSpaceWords(a, b);
    SameWordsSameInitials(a + "  " + b, a + " " + b);
  }

  /** A leading space changes nothing either. */
  lemma LeadingSpace(s: string)
    ensures Initials(" " + s) == Initials(s)
  {
    SplitLeadingSpace(s);
    SameWordsSameInitials(" " + s, s);
  }

  // ---------------------------------------------------------------------------
  // Unread count

  /** `unreadData?.unread_count || 0`: the fetched count, or 0 while no
      data has arrived or the count is missing or zero. */
  function UnreadCount(data: Value): (r: Value)
    ensures Truthy(Get(data, "unread_count")) ==> r == Get(data, "unread_count")
    ensures !Truthy(Get(data, "unread_count")) ==> r == Num(0.0)
  {
    Or(Get(data, "unread_count"), Num(0.0))
  }

  /** Before the first response the count is 0; a positive count is shown
      as fetched. */
  lemma UnreadDefaults(n: real)
    requires n > 0.0
    ensures UnreadCount(Undefined) == Num(0.0)
    ensures UnreadCount(Obj([("unread_count", Num(n))])) == Num(n)
  {
    assert EntryIndex([("unread_count", Num(n))], "unread_count") == Some(0);
  }
}
