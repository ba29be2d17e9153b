/**
 Conversion of a Ruby class constant into the symbol that names a terminus
 class or an indirection: the namespace up to the last `::` is dropped, a
 leading capital is lowered, and every other capital becomes `_` followed by
 its lower-case letter ("Puppet::Indirector::Terminus::MyTermType" becomes
 "my_term_type").
 */
module Naming {

  /** Ruby's `[A-Z]` character class. */
  predicate IsUpper(c: char) {
    'A' <= c <= 'Z'
  }

  /** Ruby's `downcase` on one ASCII character. */
  function Lower(c: char): (r: char)
    ensures !IsUpper(r)
    ensures IsUpper(c) ==> 'a' <= r <= 'z' && r as int == c as int + 32
    ensures !IsUpper(c) ==> r == c
  {
    if IsUpper(c) then (c as int + 32) as char else c
  }

  predicate NoUpper(s: string) {
    forall i :: 0 <= i < |s| ==> !IsUpper(s[i])
  }

  /** A `::` namespace separator starts at index `i` of `s`. */
  predicate SeparatorAt(s: string, i: int) {
    0 <= i < |s| - 1 && s[i] == ':' && s[i + 1] == ':'
  }

  /** No `::` namespace separator occurs in `s`. */
  predicate NoSeparator(s: string) {
    forall i :: 0 <= i < |s| ==> !SeparatorAt(s, i)
  }

  predicate NoColon(s: string) {
    forall i :: 0 <= i < |s| ==> s[i] != ':'
  }

  /**
   Where the last segment of a constant starts: 0 when the constant has no
   namespace, otherwise just after a `::` that no later `::` overlaps.
   */
  function SegmentStart(s: string): (k: nat)
    ensures k <= |s|
    ensures k == 0 || SeparatorAt(s, k - 2)
    ensures forall i :: k - 1 <= i < |s| ==> !SeparatorAt(s, i)
    decreases |s|
  {
    if |s| < 2 then 0
    else if SeparatorAt(s, |s| - 2) then |s|
    else
      var p := s[..|s| - 1];
      var k := SegmentStart(p);
      assert k == 0 || SeparatorAt(s, k - 2) by {
        if k != 0 { assert SeparatorAt(p, k - 2); }
      }
      assert forall i :: k - 1 <= i < |s| ==> !SeparatorAt(s, i) by {
        forall i | k - 1 <= i < |s| ensures !SeparatorAt(s, i) {
          if i < |s| - 2 { assert !SeparatorAt(p, i); }
        }
      }
      k
  }

  /** The text after the last `::`, the whole constant when there is none. */
  function LastSegment(s: string): (r: string)
    ensures NoSeparator(r)
  {
    var k := SegmentStart(s);
    assert NoSeparator(s[k..]) by {
      forall i | 0 <= i < |s| - k ensures !SeparatorAt(s[k..], i) {
        assert !SeparatorAt(s, k + i);
      }
    }
    s[k..]
  }

  /**
   `gsub(/[A-Z]/) { "_" + downcase }` on the part after the first character:
   every capital becomes an underscore followed by its lower-case letter,
   every other character is kept.
   */
  function UnderscoreCapitals(s: string): (r: string)
    ensures NoUpper(r)
    ensures |s| == 0 <==> |r| == 0
    ensures |s| > 0 ==> (r[0] == ':' <==> s[0] == ':')
    ensures |s| > 0 && !IsUpper(s[0]) ==> r[0] == s[0]
  {
    if s == [] then []
    else (if IsUpper(s[0]) then ['_', Lower(s[0])] else [s[0]]) + UnderscoreCapitals(s[1..])
  }

  /**
   `sub(/^[A-Z]/) { downcase }` followed by the `gsub` above: a leading
   capital is only lowered, later capitals become `_` and a lower-case letter.
   */
  function Underscore(s: string): (r: string)
    ensures NoUpper(r)
    ensures |r| == 0 <==> |s| == 0
  {
    if s == [] then [] else [Lower(s[0])] + UnderscoreCapitals(s[1..])
  }

  /** The symbol a class constant is given as its `name`. */
  function ConstToName(constant: string): (r: string)
    ensures NoUpper(r)
    ensures NoSeparator(r)
  {
    var segment := LastSegment(constant);
    UnderscorePreservesNoSeparator(segment);
    Underscore(segment)
  }

  // ---------------------------------------------------------------------
  // Facts about the pieces

  /** Dropping the first character of a string keeps it free of separators. */
  lemma NoSeparatorTail(s: string)
    requires |s| > 0 && NoSeparator(s)
    ensures NoSeparator(s[1..])
  {
    forall i | 0 <= i < |s[1..]| ensures !SeparatorAt(s[1..], i) {
      assert !SeparatorAt(s, i + 1);
    }
  }

  /** A string without `::` is its own last segment. */
  lemma LastSegmentOfPlain(s: string)
    requires NoSeparator(s)
    ensures LastSegment(s) == s
  {
    assert SegmentStart(s) == 0;
  }

  /** Dropping the namespace: whatever precedes a final `::` is ignored. */
  lemma LastSegmentAfterSeparator(namespace: string, x: string)
    requires |namespace| >= 2
    requires namespace[|namespace| - 2] == ':' && namespace[|namespace| - 1] == ':'
    requires NoColon(x)
    ensures LastSegment(namespace + x) == x
  {
    var s := namespace + x;
    var n := |namespace|;
    var k := SegmentStart(s);
    assert SeparatorAt(s, n - 2);
    assert k >= n;
    assert SeparatorAt(s, k - 2);
    assert k == n;
    assert s[n..] == x;
  }

  lemma {:induction false} UnderscoreCapitalsOfLower(s: string)
    requires NoUpper(s)
    ensures UnderscoreCapitals(s) == s
    decreases |s|
  {
    if s != [] {
      assert NoUpper(s[1..]) by {
        forall i | 0 <= i < |s[1..]| ensures !IsUpper(s[1..][i]) {
          assert s[1..][i] == s[i + 1];
        }
      }
      UnderscoreCapitalsOfLower(s[1..]);
      assert [s[0]] + s[1..] == s;
    }
  }

  /** A name that is already lower case is left alone. */
  lemma UnderscoreOfLower(s: string)
    requires NoUpper(s)
    ensures Underscore(s) == s
  {
    if s != [] {
      assert NoUpper(s[1..]) by {
        forall i | 0 <= i < |s[1..]| ensures !IsUpper(s[1..][i]) {
          assert s[1..][i] == s[i + 1];
        }
      }
      UnderscoreCapitalsOfLower(s[1..]);
      assert [s[0]] + s[1..] == s;
    }
  }

  lemma {:induction false} UnderscoreCapitalsPreservesNoSeparator(s: string)
    requires NoSeparator(s)
    ensures NoSeparator(UnderscoreCapitals(s))
    decreases |s|
  {
    if s != [] {
      var head: string := if IsUpper(s[0]) then ['_', Lower(s[0])] else [s[0]];
      var tail := UnderscoreCapitals(s[1..]);
      NoSeparatorTail(s);
      UnderscoreCapitalsPreservesNoSeparator(s[1..]);
      var r := head + tail;
      assert UnderscoreCapitals(s) == r;
      forall i | 0 <= i < |r| ensures !SeparatorAt(r, i) {
        if i + 1 < |head| {
          assert r[i] == '_';
        } else if i + 1 == |head| && i + 1 < |r| {
          assert r[i] == head[|head| - 1] && r[i + 1] == tail[0];
          if r[i] == ':' {
            assert s[0] == ':' && !SeparatorAt(s, 0);
            assert s[1..][0] == s[1];
          }
        } else if i + 1 < |r| {
          assert !SeparatorAt(tail, i - |head|);
          assert r[i] == tail[i - |head|] && r[i + 1] == tail[i - |head| + 1];
        }
      }
    }
  }

  lemma UnderscorePreservesNoSeparator(s: string)
    requires NoSeparator(s)
    ensures NoSeparator(Underscore(s))
  {
    if s != [] {
      var tail := UnderscoreCapitals(s[1..]);
      NoSeparatorTail(s);
      UnderscoreCapitalsPreservesNoSeparator(s[1..]);
      var r := [Lower(s[0])] + tail;
      forall i | 0 <= i < |r| ensures !SeparatorAt(r, i) {
        if i == 0 && 1 < |r| {
          if r[0] == ':' {
            assert s[0] == ':' && !SeparatorAt(s, 0);
            assert s[1..][0] == s[1];
          }
        } else if i + 1 < |r| {
          assert !SeparatorAt(tail, i - 1);
          assert r[i] == tail[i - 1] && r[i + 1] == tail[i];
        }
      }
    }
  }

  /** Converting a name twice gives the same symbol as converting it once. */
  lemma ConstToNameIdempotent(constant: string)
    ensures ConstToName(ConstToName(constant)) == ConstToName(constant)
  {
    var name := ConstToName(constant);
    LastSegmentOfPlain(name);
    UnderscoreOfLower(name);
  }

  lemma {:induction false} UnderscoreCapitalsAppend(a: string, b: string)
    ensures UnderscoreCapitals(a + b) == UnderscoreCapitals(a) + UnderscoreCapitals(b)
    decreases |a|
  {
    if a == [] {
      assert a + b == b;
    } else {
      assert (a + b)[0] == a[0] && (a + b)[1..] == a[1..] + b;
      UnderscoreCapitalsAppend(a[1..], b);
    }
  }

  // ---------------------------------------------------------------------
  // Reference definition: a CamelCase constant is a sequence of words

  /** One CamelCase word: a capital followed by lower-case letters and digits. */
  datatype Word = Word(initial: char, rest: string)

  predicate IsLowerOrDigit(c: char) {
    'a' <= c <= 'z' || '0' <= c <= '9'
  }

  predicate WellFormed(w: Word) {
    IsUpper(w.initial) && forall i :: 0 <= i < |w.rest| ==> IsLowerOrDigit(w.rest[i])
  }

  predicate AllWellFormed(ws: seq<Word>) {
    ws == [] || (WellFormed(ws[0]) && AllWellFormed(ws[1..]))
  }

  /** The words written together, as in a Ruby constant ("OneTwo"). */
  function Camel(ws: seq<Word>): string {
    if ws == [] then [] else [ws[0].initial] + ws[0].rest + Camel(ws[1..])
  }

  function LowerWord(w: Word): string {
    [Lower(w.initial)] + w.rest
  }

  /** Each word in lower case, preceded by an underscore. */
  function UnderscoredWords(ws: seq<Word>): string {
    if ws == [] then [] else "_" + LowerWord(ws[0]) + UnderscoredWords(ws[1..])
  }

  /** The words in lower case joined by underscores ("one_two"). */
  function Snake(ws: seq<Word>): string
    requires |ws| > 0
  {
    LowerWord(ws[0]) + UnderscoredWords(ws[1..])
  }

  lemma {:induction false} CamelHasNoColon(ws: seq<Word>)
    requires AllWellFormed(ws)
    ensures NoColon(Camel(ws))
    decreases |ws|
  {
    if ws != [] {
      CamelHasNoColon(ws[1..]);
      var c := Camel(ws);
      var tail := Camel(ws[1..]);
      assert WellFormed(ws[0]);
      forall i | 0 <= i < |c| ensures c[i] != ':' {
        if i == 0 {
        } else if i <= |ws[0].rest| {
          assert c[i] == ws[0].rest[i - 1];
        } else {
          assert c[i] == tail[i - 1 - |ws[0].rest|];
        }
      }
    }
  }

  lemma {:induction false} UnderscoreCapitalsOfCamel(ws: seq<Word>)
    requires AllWellFormed(ws)
    ensures UnderscoreCapitals(Camel(ws)) == UnderscoredWords(ws)
    decreases |ws|
  {
    if ws != [] {
      var w := ws[0];
      assert WellFormed(w);
      assert NoUpper(w.rest) by {
        forall i | 0 <= i < |w.rest| ensures !IsUpper(w.rest[i]) {
          assert IsLowerOrDigit(w.rest[i]);
        }
      }
      calc {
        UnderscoreCapitals(Camel(ws));
        { assert Camel(ws) == [w.initial] + (w.rest + Camel(ws[1..])); }
        UnderscoreCapitals([w.initial] + (w.rest + Camel(ws[1..])));
        { UnderscoreCapitalsAppend([w.initial], w.rest + Camel(ws[1..])); }
        UnderscoreCapitals([w.initial]) + UnderscoreCapitals(w.rest + Camel(ws[1..]));
        { UnderscoreCapitalsAppend(w.rest, Camel(ws[1..])); }
        UnderscoreCapitals([w.initial]) + (UnderscoreCapitals(w.rest) + UnderscoreCapitals(Camel(ws[1..])));
        { UnderscoreCapitalsOfLower(w.rest); UnderscoreCapitalsOfCamel(ws[1..]);
          assert [w.initial][1..] == []; }
        ['_', Lower(w.initial)] + (w.rest + UnderscoredWords(ws[1..]));
        UnderscoredWords(ws);
      }
    }
  }

  lemma NoColonNoSeparator(s: string)
    requires NoColon(s)
    ensures NoSeparator(s)
  {
    forall i | 0 <= i < |s| ensures !SeparatorAt(s, i) {
      assert s[i] != ':';
    }
  }

  lemma WellFormedRestNoUpper(w: Word)
    requires WellFormed(w)
    ensures NoUpper(w.rest)
  {
    forall i | 0 <= i < |w.rest| ensures !IsUpper(w.rest[i]) {
      assert IsLowerOrDigit(w.rest[i]);
    }
  }

  lemma {:induction false} UnderscoreOfCamelHead(ws: seq<Word>)
    requires |ws| > 0
    ensures Underscore(Camel(ws)) == [Lower(ws[0].initial)] + UnderscoreCapitals(ws[0].rest + Camel(ws[1..]))
  {
    assert Camel(ws) == [ws[0].initial] + (ws[0].rest + Camel(ws[1..]));
  }

  lemma {:induction false} UnderscoreCapitalsOfCamelTail(ws: seq<Word>)
    requires |ws| > 0 && AllWellFormed(ws)
    ensures UnderscoreCapitals(ws[0].rest + Camel(ws[1..])) == ws[0].rest + UnderscoredWords(ws[1..])
  {
    assert WellFormed(ws[0]);
    UnderscoreCapitalsAppend(ws[0].rest, Camel(ws[1..]));
    WellFormedRestNoUpper(ws[0]);
    UnderscoreCapitalsOfLower(ws[0].rest);
    UnderscoreCapitalsOfCamel(ws[1..]);
  }

  lemma {:induction false} UnderscoreOfCamel(ws: seq<Word>)
    requires |ws| > 0 && AllWellFormed(ws)
    ensures Underscore(Camel(ws)) == Snake(ws)
  {
    var head, rest, tail := [Lower(ws[0].initial)], ws[0].rest, UnderscoredWords(ws[1..]);
    calc {
      Underscore(Camel(ws));
    == { UnderscoreOfCamelHead(ws); }
      head + UnderscoreCapitals(rest + Camel(ws[1..]));
    == { UnderscoreCapitalsOfCamelTail(ws); }
      head + (rest + tail);
    == { assert head + (rest + tail) == (head + rest) + tail; }
      (head + rest) + tail;
    ==
      Snake(ws);
    }
  }

  /** An unqualified CamelCase constant becomes its words joined by underscores. */
  lemma {:induction false} CamelToSnake(ws: seq<Word>)
    requires |ws| > 0 && AllWellFormed(ws)
    ensures ConstToName(Camel(ws)) == Snake(ws)
  {
    CamelHasNoColon(ws);
    NoColonNoSeparator(Camel(ws));
    LastSegmentOfPlain(Camel(ws));
    UnderscoreOfCamel(ws);
  }

  /** A namespaced constant is named after its last segment alone. */
  lemma {:induction false} QualifiedCamelToSnake(namespace: string, ws: seq<Word>)
    requires |ws| > 0 && AllWellFormed(ws)
    ensures ConstToName(namespace + "::" + Camel(ws)) == Snake(ws)
  {
    CamelHasNoColon(ws);
    LastSegmentAfterSeparator(namespace + "::", Camel(ws));
    UnderscoreOfCamel(ws);
  }

  // ---------------------------------------------------------------------
  // The constants the terminus specification converts

  lemma {:induction false} ConstToNameOneTwo(constant: string)
    requires constant == "OneTwo"
    ensures ConstToName(constant) == "one_two"
  {
    var ws := [Word('O', "ne"), Word('T', "wo")];
    assert constant == Camel(ws);
    assert Snake(ws) == "one_two";
    CamelToSnake(ws);
  }

  lemma {:induction false} ConstToNameMyTermType(constant: string)
    requires constant == "Puppet::Indirector::Terminus::MyTermType"
    ensures ConstToName(constant) == "my_term_type"
  {
    var ws := [Word('M', "y"), Word('T', "erm"), Word('T', "ype")];
    var namespace := "Puppet::Indirector::Terminus";
    assert constant == namespace + "::" + Camel(ws);
    assert Snake(ws) == "my_term_type";
    QualifiedCamelToSnake(namespace, ws);
  }

  lemma {:induction false} ConstToNameMyStuff(constant: string)
    requires constant == "Terminus::Type::MyStuff" || constant == "MyStuff"
    ensures ConstToName(constant) == "my_stuff"
  {
    var ws := [Word('M', "y"), Word('S', "tuff")];
    var namespace := "Terminus::Type";
    assert Snake(ws) == "my_stuff";
    if constant == "MyStuff" {
      assert constant == Camel(ws);
      CamelToSnake(ws);
    } else {
      assert constant == namespace + "::" + Camel(ws);
      QualifiedCamelToSnake(namespace, ws);
    }
  }

  lemma {:induction false} ConstToNameMyIndirection(constant: string)
    requires constant == "MyIndirection"
    ensures ConstToName(constant) == "my_indirection"
  {
    var ws := [Word('M', "y"), Word('I', "ndirection")];
    assert constant == Camel(ws);
    assert Snake(ws) == "my_indirection";
    CamelToSnake(ws);
  }

  lemma {:induction false} ConstToNameAbstract(constant: string)
    requires constant == "Abstract"
    ensures ConstToName(constant) == "abstract"
  {
    var ws := [Word('A', "bstract")];
    assert constant == Camel(ws);
    assert Snake(ws) == "abstract";
    CamelToSnake(ws);
  }
}
