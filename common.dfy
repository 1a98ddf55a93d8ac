// Shared value types and the string helpers the engine's Python code relies on
// (str.lower, str.strip, str.split, "in" on strings, list de-duplication).

module Common {

  datatype Option<+T> = None | Some(value: T)
  {
    function GetOr(default_: T): T
    {
      if Some? then value else default_
    }
  }

  /** The exceptions the modelled code raises or catches. */
  datatype Failure =
    | KeyError(key: string)
    | ValueError(message: string)

  datatype Result<+T> = Ok(value: T) | Err(error: Failure)

  /** Python truthiness of an optional string: absent and "" are both falsy. */
  predicate Truthy(s: Option<string>)
  {
    s.Some? && s.value != ""
  }

  // ---------------------------------------------------------------------------
  // Character classes and case mapping (ASCII only, see README)
  // ---------------------------------------------------------------------------

  function LowerChar(c: char): char
  {
    if 'A' <= c <= 'Z' then (c as int + 32) as char else c
  }

  function UpperChar(c: char): char
  {
    if 'a' <= c <= 'z' then (c as int - 32) as char else c
  }

  function Lower(s: string): (r: string)
    ensures |r| == |s|
  {
    seq(|s|, i requires 0 <= i < |s| => LowerChar(s[i]))
  }

  function Upper(s: string): (r: string)
    ensures |r| == |s|
  {
    seq(|s|, i requires 0 <= i < |s| => UpperChar(s[i]))
  }

  lemma LowerIdempotent(s: string)
    ensures Lower(Lower(s)) == Lower(s)
  {
  }

  lemma LowerConcat(a: string, b: string)
    ensures Lower(a + b) == Lower(a) + Lower(b)
  {
    assert forall i | 0 <= i < |a + b| :: Lower(a + b)[i] == (Lower(a) + Lower(b))[i];
  }

  predicate IsAlnum(c: char)
  {
    'a' <= c <= 'z' || 'A' <= c <= 'Z' || '0' <= c <= '9'
  }

  predicate IsSpace(c: char)
  {
    c == ' ' || c == '\t' || c == '\n' || c == '\r' || c == '\U{000B}' || c == '\U{000C}'
  }

  // ---------------------------------------------------------------------------
  // Substrings
  // ---------------------------------------------------------------------------

  predicate StartsWith(s: string, p: string)
  {
    |p| <= |s| && s[..|p|] == p
  }

  /** Python's `p in s` for strings. */
  predicate Contains(s: string, p: string)
    decreases |s|
  {
    StartsWith(s, p) || (|s| > 0 && Contains(s[1..], p))
  }

  lemma ContainsAt(s: string, p: string, i: nat)
    requires i + |p| <= |s| && s[i..i + |p|] == p
    ensures Contains(s, p)
    decreases i
  {
    if i > 0 {
      assert s[1..][i - 1..i - 1 + |p|] == p;
      ContainsAt(s[1..], p, i - 1);
    }
  }

  /** First index of character c in s, or |s| when it does not occur. */
  function IndexOfChar(s: string, c: char): (k: nat)
    ensures k <= |s|
    ensures forall j | 0 <= j < k :: s[j] != c
    ensures k < |s| ==> s[k] == c
  {
    if |s| == 0 then 0
    else if s[0] == c then 0
    else 1 + IndexOfChar(s[1..], c)
  }

  /** The first c of `a + [c] + b` is the one after a, when a has none. */
  lemma {:induction false} IndexOfCharAfter(a: string, c: char, b: string)
    requires c !in a
    ensures IndexOfChar(a + [c] + b, c) == |a|
  {
    if |a| > 0 {
      assert (a + [c] + b)[1..] == a[1..] + [c] + b;
      IndexOfCharAfter(a[1..], c, b);
    }
  }

  // ---------------------------------------------------------------------------
  // strip / split / join
  // ---------------------------------------------------------------------------

  function StripLeft(s: string): (r: string)
    ensures |r| <= |s|
  {
    if |s| > 0 && IsSpace(s[0]) then StripLeft(s[1..]) else s
  }

  function StripRight(s: string): (r: string)
    ensures |r| <= |s|
  {
    if |s| > 0 && IsSpace(s[|s| - 1]) then StripRight(s[..|s| - 1]) else s
  }

  /** Python's str.strip() without arguments. */
  function Strip(s: string): string
  {
    StripRight(StripLeft(s))
  }

  /** Python's s.split(sep) for a one-character separator: never empty. */
  function SplitOn(s: string, sep: char): (parts: seq<string>)
    ensures |parts| >= 1
    ensures forall i | 0 <= i < |parts| :: sep !in parts[i]
    decreases |s|
  {
    var k := IndexOfChar(s, sep);
    if k == |s| then [s] else [s[..k]] + SplitOn(s[k + 1..], sep)
  }

  /** Python's sep.join(parts). */
  function Join(parts: seq<string>, sep: string): string
  {
    if |parts| == 0 then ""
    else if |parts| == 1 then parts[0]
    else parts[0] + sep + Join(parts[1..], sep)
  }

  lemma {:induction false} SplitJoin(parts: seq<string>, sep: char)
    requires |parts| >= 1
    requires forall i | 0 <= i < |parts| :: sep !in parts[i]
    ensures SplitOn(Join(parts, [sep]), sep) == parts
  {
    var s := Join(parts, [sep]);
    if |parts| == 1 {
      assert IndexOfChar(parts[0], sep) == |parts[0]|;
    } else {
      var rest := Join(parts[1..], [sep]);
      assert s == parts[0] + [sep] + rest;
      var k := IndexOfChar(s, sep);
      assert s[|parts[0]|] == sep;
      assert k == |parts[0]|;
      assert s[..k] == parts[0];
      assert s[k + 1..] == rest;
      SplitJoin(parts[1..], sep);
    }
  }

  /** Python's s.split() without arguments: the maximal runs of non-space characters. */
  function SplitSpace(s: string): (tokens: seq<string>)
    ensures forall i | 0 <= i < |tokens| :: tokens[i] != [] && NoSpace(tokens[i])
    decreases |s|
  {
    if |s| == 0 then []
    else if IsSpace(s[0]) then SplitSpace(s[1..])
    else
      var k := TokenEnd(s);
      [s[..k]] + SplitSpace(s[k..])
  }

  predicate NoSpace(t: string)
  {
    forall j | 0 <= j < |t| :: !IsSpace(t[j])
  }

  /** Length of the leading run of non-space characters. */
  function TokenEnd(s: string): (k: nat)
    requires |s| > 0 && !IsSpace(s[0])
    ensures 1 <= k <= |s|
    ensures NoSpace(s[..k])
    ensures k < |s| ==> IsSpace(s[k])
    decreases |s|
  {
    if |s| == 1 || IsSpace(s[1]) then 1 else 1 + TokenEnd(s[1..])
  }

  lemma TokenEndOfWord(t: string, rest: string)
    requires |t| > 0 && NoSpace(t)
    requires |rest| == 0 || IsSpace(rest[0])
    ensures TokenEnd(t + rest) == |t|
    decreases |t|
  {
    if |t| > 1 {
      assert (t + rest)[1..] == t[1..] + rest;
      TokenEndOfWord(t[1..], rest);
    }
  }

  lemma {:induction false} SplitSpaceJoin(tokens: seq<string>)
    requires forall i | 0 <= i < |tokens| :: tokens[i] != [] && NoSpace(tokens[i])
    ensures SplitSpace(Join(tokens, " ")) == tokens
  {
    if |tokens| == 1 {
      TokenEndOfWord(tokens[0], "");
      assert tokens[0] + "" == tokens[0];
      assert tokens[0][|tokens[0]|..] == [];
    } else if |tokens| > 1 {
      var t := tokens[0];
      var rest := Join(tokens[1..], " ");
      var s := Join(tokens, " ");
      assert s == t + (" " + rest);
      TokenEndOfWord(t, " " + rest);
      assert s[..|t|] == t;
      assert s[|t|..] == " " + rest;
      assert (" " + rest)[1..] == rest;
      SplitSpaceJoin(tokens[1..]);
    }
  }

  // ---------------------------------------------------------------------------
  // Lists
  // ---------------------------------------------------------------------------

  predicate NoDup<T(==)>(s: seq<T>)
  {
    forall i, j | 0 <= i < j < |s| :: s[i] != s[j]
  }

  /** s with every element already in `seen`, and every repeat, removed (first occurrences kept). */
  function DedupFrom<T(==,!new)>(s: seq<T>, seen: set<T>): (r: seq<T>)
    ensures forall x :: x in r <==> x in s && x !in seen
    ensures NoDup(r)
  {
    if |s| == 0 then []
    else if s[0] in seen then DedupFrom(s[1..], seen)
    else [s[0]] + DedupFrom(s[1..], seen + {s[0]})
  }

  /** The dedup-with-a-seen-set comprehension: first occurrences, in order. */
  function Dedup<T(==,!new)>(s: seq<T>): seq<T>
  {
    DedupFrom(s, {})
  }

  lemma {:induction false} DedupOfNoDup<T(!new)>(s: seq<T>, seen: set<T>)
    requires NoDup(s)
    requires forall x | x in s :: x !in seen
    ensures DedupFrom(s, seen) == s
  {
    if |s| > 0 {
      assert forall x | x in s[1..] :: x !in seen + {s[0]} by {
        forall x | x in s[1..] ensures x !in seen + {s[0]} {
          var k :| 1 <= k < |s| && s[k] == x;
          assert s[0] != s[k];
        }
      }
      assert NoDup(s[1..]) by {
        forall i, j | 0 <= i < j < |s[1..]| ensures s[1..][i] != s[1..][j] {
          assert s[i + 1] != s[j + 1];
        }
      }
      DedupOfNoDup(s[1..], seen + {s[0]});
    }
  }

  function Filter(s: seq<string>, drop: string): (r: seq<string>)
    ensures forall x :: x in r <==> x in s && x != drop
  {
    if |s| == 0 then []
    else if s[0] == drop then Filter(s[1..], drop)
    else [s[0]] + Filter(s[1..], drop)
  }

  function RemoveEmpty(s: seq<string>): (r: seq<string>)
    ensures forall x :: x in r <==> x in s && x != ""
  {
    Filter(s, "")
  }

  /** Appends x unless it is already present (the `if x not in l: l.append(x)` idiom). */
  function AppendNew<T(==,!new)>(s: seq<T>, x: T): (r: seq<T>)
    ensures x in r
    ensures forall y :: y in r <==> y in s || y == x
    ensures NoDup(s) ==> NoDup(r)
    ensures s <= r && |r| <= |s| + 1
  {
    if x in s then s else s + [x]
  }

  // ---------------------------------------------------------------------------
  // Decimal rendering of integers (f"{n}")
  // ---------------------------------------------------------------------------

  function DigitChar(d: nat): char
    requires d < 10
  {
    "0123456789"[d]
  }

  function NatToString(n: nat): (r: string)
    ensures |r| >= 1
    decreases n
  {
    if n < 10 then [DigitChar(n)] else NatToString(n / 10) + [DigitChar(n % 10)]
  }

  function IntToString(n: int): string
  {
    if n < 0 then "-" + NatToString(-n) else NatToString(n)
  }

  lemma NatToStringDigits(n: nat)
    ensures forall i | 0 <= i < |NatToString(n)| :: '0' <= NatToString(n)[i] <= '9'
    decreases n
  {
    if n >= 10 {
      NatToStringDigits(n / 10);
    }
  }
}
