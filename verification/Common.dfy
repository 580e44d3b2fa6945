/** Shared value types: results, JSON documents and the bytewise order on text. */
module Common {
  datatype Option<+T> = None | Some(value: T)

  /** The reasons for which the adapter refuses an input. */
  datatype Error =
    | BadSyntax | BadCalendar | CalendarOverflow | OutOfRange
    | BadType | UnknownField | Unsupported | BadCursor | BadLayout | Unbounded
    | BadBatch | Incompatible

  datatype Result<+T> = Ok(value: T) | Err(error: Error) {
    predicate IsFailure() { Err? }

    function PropagateFailure<U>(): Result<U>
      requires Err?
    {
      Err(error)
    }

    function Extract(): T
      requires Ok?
    {
      value
    }
  }

  type Byte = x: int | 0 <= x < 256

  datatype Json =
    | JNull
    | JBool(flag: bool)
    | JInt(number: int)
    | JStr(text: string)
    | JArr(items: seq<Json>)
    | JObj(members: map<string, Json>)

  /** SHA-256 over canonical JSON is a parameter of the model: any function that
      maps different documents to different digests. */
  ghost predicate Injective(hash: Json -> string) {
    forall a, b :: hash(a) == hash(b) ==> a == b
  }

  /** The same for the documents of one run: digests have a fixed length, so they can only
      tell finitely many documents apart. */
  ghost predicate CollisionFree(hash: Json -> string, docs: set<Json>) {
    forall a, b :: a in docs && b in docs && hash(a) == hash(b) ==> a == b
  }

  /** Strict lexicographic order by code point, which is how both Python and the
      engine compare text. */
  predicate TextLess(a: string, b: string) {
    |b| > 0 && (|a| == 0 || a[0] < b[0] || (a[0] == b[0] && TextLess(a[1..], b[1..])))
  }

  lemma {:induction false} TextTrichotomy(a: string, b: string)
    ensures TextLess(a, b) || TextLess(b, a) || a == b
    ensures !(TextLess(a, b) && TextLess(b, a))
    ensures a == b ==> !TextLess(a, b)
  {
    if |a| > 0 && |b| > 0 {
      TextTrichotomy(a[1..], b[1..]);
      assert a == [a[0]] + a[1..] && b == [b[0]] + b[1..];
    }
  }

  lemma {:induction false} TextTransitive(a: string, b: string, c: string)
    requires TextLess(a, b) && TextLess(b, c)
    ensures TextLess(a, c)
  {
    if |a| > 0 && a[0] == b[0] == c[0] {
      TextTransitive(a[1..], b[1..], c[1..]);
    }
  }

  /** Comparing two texts with equal-length heads compares the heads first. */
  lemma {:induction false} TextLessConcat(a: string, a': string, b: string, b': string)
    requires |a| == |a'|
    ensures TextLess(a + b, a' + b') <==> TextLess(a, a') || (a == a' && TextLess(b, b'))
  {
    if a == [] {
      assert a + b == b && a' + b' == b';
    } else {
      TextLessConcat(a[1..], a'[1..], b, b');
      assert (a + b)[1..] == a[1..] + b && (a' + b')[1..] == a'[1..] + b';
      assert a == [a[0]] + a[1..] && a' == [a'[0]] + a'[1..];
    }
  }
}
