/**
 * Types shared by the whole model: bytes, the error chain that `anyhow`
 * builds with `with_context`, the fallible results the Rust code propagates
 * with `?`, serde's JSON value tree, and the "collect until the first error"
 * step used both by the command parser and by serde when it serialises a
 * vector.
 */
module Base {

  type byte = x: int | 0 <= x < 256

  /** An error with its chain of context lines, outermost first. */
  datatype Error =
    | Cause(message: string)
    | Context(message: string, inner: Error)

  datatype Option<T> = None | Some(value: T)

  datatype Result<T> = Ok(value: T) | Err(error: Error)

  /** The result of an operation that returns `Result<()>`. */
  datatype Outcome = Pass | Fail(error: Error)

  /** `serde_json::Value`; numbers are kept as integers. */
  datatype Json =
    | JNull
    | JBool(b: bool)
    | JNumber(n: int)
    | JString(s: string)
    | JArray(items: seq<Json>)
    | JObject(fields: map<string, Json>)

  /** Applies `f` to each element, keeping the order. */
  function MapSeq<A, B>(xs: seq<A>, f: A -> B): (r: seq<B>)
    ensures |r| == |xs| && forall i :: 0 <= i < |xs| ==> r[i] == f(xs[i])
  {
    seq(|xs|, i requires 0 <= i < |xs| => f(xs[i]))
  }

  /** Appending is associative: a trace extended twice is the trace extended by both parts at once. */
  lemma AppendAssoc<T>(a: seq<T>, b: seq<T>, c: seq<T>)
    ensures a + b + c == a + (b + c)
  {
  }

  /**
   * Collects a sequence of fallible items into one result, the way
   * `collect::<Vec<_>>()` does on a fallible iterator: the first error
   * wins and nothing after it is looked at.
   */
  function CollectAll<T>(items: seq<Result<T>>): (r: Result<seq<T>>)
    ensures r.Ok? ==> |r.value| == |items|
    ensures r.Err? ==> exists k :: 0 <= k < |items| && items[k] == Err(r.error)
  {
    if items == [] then Ok([])
    else if items[0].Err? then Err(items[0].error)
    else match CollectAll(items[1..])
      case Ok(rest) => Ok([items[0].value] + rest)
      case Err(e) => Err(e)
  }

  /** Collecting succeeds exactly when every item is a value, and then keeps them all, in order. */
  lemma {:induction false} CollectAllOk<T>(items: seq<Result<T>>)
    ensures CollectAll(items).Ok? <==> forall i :: 0 <= i < |items| ==> items[i].Ok?
    ensures CollectAll(items).Ok? ==>
      |CollectAll(items).value| == |items| &&
      forall i :: 0 <= i < |items| ==> CollectAll(items).value[i] == items[i].value
  {
    if items != [] {
      CollectAllOk(items[1..]);
      if items[0].Ok? && CollectAll(items[1..]).Ok? {
        var all := CollectAll(items).value;
        forall i | 0 <= i < |items| ensures all[i] == items[i].value {
          if i > 0 {
            assert all[i] == CollectAll(items[1..]).value[i - 1];
          }
        }
      } else if items[0].Ok? {
        var k :| 0 <= k < |items[1..]| && !items[1..][k].Ok?;
        assert !items[k + 1].Ok?;
      }
    }
  }

  /** A failed collection reports the first failing item's error, and every item before it was a value. */
  lemma {:induction false} CollectAllErr<T>(items: seq<Result<T>>, e: Error)
    requires CollectAll(items) == Err(e)
    ensures exists k :: 0 <= k < |items| && items[k] == Err(e) && (forall j :: 0 <= j < k ==> items[j].Ok?)
  {
    if items[0].Err? {
      assert items[0] == Err(e);
    } else {
      CollectAllErr(items[1..], e);
      var k :| 0 <= k < |items[1..]| && items[1..][k] == Err(e) && (forall j :: 0 <= j < k ==> items[1..][j].Ok?);
      assert items[k + 1] == Err(e);
      forall j | 0 <= j < k + 1 ensures items[j].Ok? {
        if j > 0 { assert items[j] == items[1..][j - 1]; }
      }
    }
  }
}
