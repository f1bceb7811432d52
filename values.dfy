/** Configuration values as the JSON/YAML parsers hand them to acertmgr,
    and the error outcomes the modelled code can raise. */
module Values {

  datatype Option<T> = None | Some(value: T)

  /** The exceptions the modelled code raises; each aborts the caller. */
  datatype Error =
    | KeyError(key: string)         // a missing dictionary key
    | TypeError                     // a value of the wrong kind (e.g. a non-string path)
    | ValueError                    // int() of a string that is not an integer literal
    | AttributeError                // a method missing on a value (split/items on a non-string/non-dict)
    | IdnaError(name: string)       // the IDNA encoder rejected a domain name
    | FileNotFound(path: string)    // opening a file that does not exist
    | IsADirectory(path: string)    // opening a directory as a file
    | NotParsable(path: string)     // a configuration file that neither parser accepts

  datatype Result<T> = Ok(value: T) | Err(error: Error)

  /** A parsed configuration value. */
  datatype Value =
    | Str(s: string)
    | Int(i: int)
    | Float(r: real)        // a number written with a fraction or an exponent
    | Bool(b: bool)
    | Null
    | List(items: seq<Value>)
    | Dict(entries: map<string, Value>)

  /** A configuration document: a dictionary with string keys. */
  type Doc = map<string, Value>

  /** `d.get(key, default)` */
  function GetOr(d: Doc, key: string, default: Value): Value
  {
    if key in d then d[key] else default
  }

  /** A loop that performs each step in turn and stops at the first
      exception: all results when every step succeeds, else the first error. */
  function Collect<T>(rs: seq<Result<T>>): Result<seq<T>>
    decreases |rs|
  {
    if |rs| == 0 then Ok([])
    else match Collect(rs[..|rs| - 1])
      case Err(e) => Err(e)
      case Ok(done) =>
        match rs[|rs| - 1]
        case Err(e) => Err(e)
        case Ok(x) => Ok(done + [x])
  }

  /** The loop completes exactly when every step succeeds, and then yields
      one result per step, in order. */
  lemma {:induction false} CollectOk<T>(rs: seq<Result<T>>)
    ensures Collect(rs).Ok? <==> forall i :: 0 <= i < |rs| ==> rs[i].Ok?
    ensures Collect(rs).Ok? ==>
      |Collect(rs).value| == |rs| && forall i :: 0 <= i < |rs| ==> rs[i] == Ok(Collect(rs).value[i])
    decreases |rs|
  {
    if |rs| > 0 {
      var front := rs[..|rs| - 1];
      CollectOk(front);
      assert forall i :: 0 <= i < |front| ==> front[i] == rs[i];
    }
  }

  /** One more step of the loop. */
  lemma CollectStep<T>(rs: seq<Result<T>>, i: nat)
    requires i < |rs| && Collect(rs[..i]).Ok?
    ensures Collect(rs[..i + 1]) == match rs[i]
      case Err(e) => Err(e)
      case Ok(x) => Ok(Collect(rs[..i]).value + [x])
  {
    assert rs[..i + 1][..i] == rs[..i];
  }

  /** A failing loop fails with the error of its first failing step. */
  lemma {:induction false} CollectFirstError<T>(rs: seq<Result<T>>, n: nat)
    requires n < |rs| && rs[n].Err? && forall i :: 0 <= i < n ==> rs[i].Ok?
    ensures Collect(rs) == Err(rs[n].error)
    decreases |rs|
  {
    var front := rs[..|rs| - 1];
    if n == |rs| - 1 {
      CollectOk(front);
    } else {
      assert forall i :: 0 <= i <= n ==> front[i] == rs[i];
      CollectFirstError(front, n);
    }
  }

  /** Once a prefix of the steps fails, the later steps do not matter. */
  lemma {:induction false} CollectStopsAtError<T>(rs: seq<Result<T>>, n: nat)
    requires n <= |rs| && Collect(rs[..n]).Err?
    ensures Collect(rs) == Collect(rs[..n])
    decreases |rs|
  {
    if n == |rs| {
      assert rs[..n] == rs;
    } else {
      var front := rs[..|rs| - 1];
      assert front[..n] == rs[..n];
      CollectStopsAtError(front, n);
    }
  }
}
