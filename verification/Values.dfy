/** Dynamic values as the SDK sees them, and the trimming of keys. */
module Values {
  import opened Core

  /** unicode.IsSpace. */
  predicate IsSpace(c: char) {
    var n := c as int;
    || 9 <= n <= 13 || n == 0x20 || n == 0x85 || n == 0xA0 || n == 0x1680
    || 0x2000 <= n <= 0x200A || n == 0x2028 || n == 0x2029 || n == 0x202F || n == 0x205F || n == 0x3000
  }

  /** The 25 code points with the Unicode property White_Space. */
  lemma {:induction false} SpacesExactly(c: char)
    ensures IsSpace(c) <==>
            c as int in {9, 10, 11, 12, 13, 32, 133, 160, 5760, 8192, 8193, 8194, 8195, 8196, 8197, 8198, 8199, 8200,
                         8201, 8202, 8232, 8233, 8239, 8287, 12288}
  {
  }

  function TrimLeft(s: string): string {
    if s != "" && IsSpace(s[0]) then TrimLeft(s[1..]) else s
  }

  function TrimRight(s: string): string {
    if s != "" && IsSpace(s[|s| - 1]) then TrimRight(s[..|s| - 1]) else s
  }

  function Trim(s: string): string {
    TrimRight(TrimLeft(s))
  }

  lemma {:induction false} TrimLeftEdge(s: string)
    ensures TrimLeft(s) == "" || !IsSpace(TrimLeft(s)[0])
  {
    if s != "" && IsSpace(s[0]) {
      TrimLeftEdge(s[1..]);
    }
  }

  lemma {:induction false} TrimRightEdge(s: string)
    ensures TrimRight(s) <= s
    ensures TrimRight(s) == "" || !IsSpace(TrimRight(s)[|TrimRight(s)| - 1])
  {
    if s != "" && IsSpace(s[|s| - 1]) {
      TrimRightEdge(s[..|s| - 1]);
    }
  }

  lemma {:induction false} TrimLeftFrom(s: string) returns (i: nat)
    ensures i <= |s| && TrimLeft(s) == s[i..] && forall k :: 0 <= k < i ==> IsSpace(s[k])
  {
    if s != "" && IsSpace(s[0]) {
      var j := TrimLeftFrom(s[1..]);
      i := j + 1;
      assert s[1..][j..] == s[i..];
      assert forall k :: 1 <= k < i ==> s[k] == s[1..][k - 1];
    } else {
      i := 0;
    }
  }

  lemma {:induction false} TrimRightTo(s: string) returns (j: nat)
    ensures j <= |s| && TrimRight(s) == s[..j] && forall k :: j <= k < |s| ==> IsSpace(s[k])
  {
    if s != "" && IsSpace(s[|s| - 1]) {
      j := TrimRightTo(s[..|s| - 1]);
      assert s[..|s| - 1][..j] == s[..j];
      assert forall k :: j <= k < |s| - 1 ==> s[k] == s[..|s| - 1][k];
    } else {
      j := |s|;
    }
  }

  /** Trimming cuts off white space at both ends and nothing else. */
  lemma {:induction false} TrimExactly(s: string) returns (i: nat, j: nat)
    ensures i <= j <= |s| && Trim(s) == s[i..j]
    ensures forall k :: 0 <= k < i || j <= k < |s| ==> IsSpace(s[k])
    ensures i < j ==> !IsSpace(s[i]) && !IsSpace(s[j - 1])
  {
    i := TrimLeftFrom(s);
    var t := TrimLeft(s);
    var n := TrimRightTo(t);
    j := i + n;
    TrimLeftEdge(s);
    TrimRightEdge(t);
    assert t[..n] == s[i..j];
    assert forall k :: j <= k < |s| ==> s[k] == t[k - i];
    if i < j {
      assert t[0] == s[i] && t[n - 1] == s[j - 1];
    }
  }

  /** What is left is blank exactly when there was nothing but white space. */
  lemma {:induction false} TrimBlank(s: string)
    ensures Trim(s) == "" <==> forall k :: 0 <= k < |s| ==> IsSpace(s[k])
  {
    var i, j := TrimExactly(s);
    if i < j {
      assert !IsSpace(s[i]);
    }
  }

  lemma TrimTwice(s: string)
    ensures Trim(Trim(s)) == Trim(s)
  {
    TrimLeftEdge(s);
    TrimRightEdge(TrimLeft(s));
    var t := Trim(s);
    assert t != "" ==> t[0] == TrimLeft(s)[0];
  }

  datatype Entry = Entry(key: string, value: Value)

  /** One constructor for each way a dynamic type is treated. */
  datatype Value =
    | Nil
    | Scalar(n: int)                                   // bool and the sized numbers
    | Str(s: string)
    | List(items: seq<Value>)                          // []any
    | NilMap                                           // a nil map[string]any
    | Map(entries: map<string, Value>)                 // map[string]any
    | Number(reading: Option<int>, text: string)       // json.Number
    | Rendered(text: string)                           // time, duration, error, Stringer
    | Strings(texts: seq<string>)                      // []string
    | Ints(numbers: seq<int>)                          // []int
    | StringMap(stringEntries: map<string, string>)           // map[string]string
    | IntMap(intEntries: map<string, int>)               // map[string]int
    | NilPointer
    | Pointer(target: Value)
    | AnyMap(pairs: seq<Entry>)                        // any other map: printed keys, in iteration order
    | AnyList(items: seq<Value>)                       // any other slice or array
    | Opaque(decoded: Option<Value>, text: string)     // its JSON round trip, or its printed form

  /** Only nil, scalars, strings, generic lists and string-keyed maps. */
  predicate Normal(v: Value) {
    match v
    case Nil => true
    case Scalar(_) => true
    case Str(_) => true
    case List(items) => forall i :: 0 <= i < |items| ==> Normal(items[i])
    case Map(m) => forall k :: k in m ==> Normal(m[k])
    case _ => false
  }

  /** One step from a container to one of its members. */
  datatype Step = Key(key: string) | Index(i: nat)
}
