/** JSON values, HTTP responses and the error values that every handler shares. */
module Http {

  /** Identifiers of stored documents, as the path parameters carry them. */
  type Id = string

  datatype Option<T> = None | Some(value: T)

  datatype Result<T, E> = Ok(value: T) | Err(error: E)

  /** A JSON value; an object keeps its members in insertion order, as a JavaScript object does. */
  datatype Json =
    | JNull
    | JBool(b: bool)
    | JNum(n: real)
    | JStr(s: string)
    | JArr(items: seq<Json>)
    | JObj(members: seq<Member>)

  datatype Member = Member(key: string, value: Json)

  /** The property names of an object, in order (`Object.keys`). */
  function Keys(ms: seq<Member>): seq<string>
  {
    seq(|ms|, i requires 0 <= i < |ms| => ms[i].key)
  }

  /** `obj[key]`: the value of the first member named `key`, or None when there is none. */
  function Get(ms: seq<Member>, key: string): (r: Option<Json>)
    ensures r.None? <==> key !in Keys(ms)
  {
    if ms == [] then None
    else if ms[0].key == key then assert Keys(ms)[0] == key; Some(ms[0].value)
    else
      assert Keys(ms) == [ms[0].key] + Keys(ms[1..]);
      Get(ms[1..], key)
  }

  /** In an object whose keys are distinct, reading a member's key gives that member's value. */
  lemma {:induction false} GetMember(ms: seq<Member>, i: int)
    requires Distinct(Keys(ms)) && 0 <= i < |ms|
    ensures Get(ms, ms[i].key) == Some(ms[i].value)
  {
    if i > 0 {
      assert Keys(ms)[0] != Keys(ms)[i];
      var tail := ms[1..];
      assert Keys(tail) == Keys(ms)[1..];
      assert tail[i - 1] == ms[i];
      GetMember(tail, i - 1);
    }
  }

  /** The keys of an object with one more member in front. */
  lemma KeysCons(m: Member, ms: seq<Member>)
    ensures Keys([m] + ms) == [m.key] + Keys(ms)
  {
  }

  /** Reading an object with one more member in front: that member wins when its key matches. */
  lemma GetCons(m: Member, ms: seq<Member>)
    ensures forall k :: Get([m] + ms, k) == if m.key == k then Some(m.value) else Get(ms, k)
  {
    assert ([m] + ms)[1..] == ms;
  }

  /** `obj[key] = value`: overwrites the property in place when it exists, appends it otherwise. */
  function Set(ms: seq<Member>, key: string, value: Json): (r: seq<Member>)
    ensures Get(r, key) == Some(value)
    ensures forall k :: k != key ==> Get(r, k) == Get(ms, k)
    ensures Keys(r) == if key in Keys(ms) then Keys(ms) else Keys(ms) + [key]
  {
    if ms == [] then [Member(key, value)]
    else
      var head, tail := ms[0], ms[1..];
      assert ms == [head] + tail;
      KeysCons(head, tail);
      GetCons(head, tail);
      if head.key == key then
        KeysCons(Member(key, value), tail);
        GetCons(Member(key, value), tail);
        [Member(key, value)] + tail
      else
        var rest := Set(tail, key, value);
        KeysCons(head, rest);
        GetCons(head, rest);
        [head] + rest
  }

  /** Setting a property the object does not have appends it as the last member. */
  lemma {:induction false} SetAppends(ms: seq<Member>, key: string, value: Json)
    requires key !in Keys(ms)
    ensures Set(ms, key, value) == ms + [Member(key, value)]
  {
    if ms != [] {
      var head, tail := ms[0], ms[1..];
      assert ms == [head] + tail;
      KeysCons(head, tail);
      SetAppends(tail, key, value);
      assert ms + [Member(key, value)] == [head] + (tail + [Member(key, value)]);
    }
  }

  /** `delete obj[key]`: the object without the property, every other property unchanged. */
  function Delete(ms: seq<Member>, key: string): (r: seq<Member>)
    ensures key !in Keys(r)
    ensures forall k :: k != key ==> Get(r, k) == Get(ms, k)
    ensures key !in Keys(ms) ==> r == ms
  {
    if ms == [] then []
    else
      var rest := Delete(ms[1..], key);
      assert Keys(ms) == [ms[0].key] + Keys(ms[1..]);
      if ms[0].key == key then rest
      else
        assert Keys([ms[0]] + rest) == [ms[0].key] + Keys(rest);
        [ms[0]] + rest
  }

  /** Deleting the property that was added last gives back the object it was added to. */
  lemma {:induction false} DeleteLast(ms: seq<Member>, key: string, value: Json)
    requires key !in Keys(ms)
    ensures Delete(ms + [Member(key, value)], key) == ms
  {
    if ms == [] {
    } else {
      assert (ms + [Member(key, value)])[1..] == ms[1..] + [Member(key, value)];
      assert Keys(ms) == [ms[0].key] + Keys(ms[1..]);
      DeleteLast(ms[1..], key, value);
    }
  }

  datatype Response = Response(status: int, body: Json)

  /** The body `{"message": text}`. */
  function Message(text: string): Json
  {
    JObj([Member("message", JStr(text))])
  }

  /** The body `{"error": text}`. */
  function ErrorBody(text: string): Json
  {
    JObj([Member("error", JStr(text))])
  }

  /**
   * An error passed to a store callback: its `message`, its optional `status`, and
   * `details`, the JSON its enumerable properties serialise to.
   */
  datatype DbError = DbError(message: string, status: Option<int>, details: Json)

  /** What an Express handler does: send a response, or hand an error on with `next(err)`. */
  datatype Reply = Send(response: Response) | Next(err: DbError)

  ghost predicate Distinct<T>(xs: seq<T>)
  {
    forall i, j :: 0 <= i < j < |xs| ==> xs[i] != xs[j]
  }

  /** `xs` lists every element of `s` exactly once, and nothing else. */
  ghost predicate Enumerates(xs: seq<Id>, s: set<Id>)
  {
    Distinct(xs) && forall x :: x in xs <==> x in s
  }

  /** A sequence that enumerates a set is as long as the set is large. */
  lemma {:induction false} EnumerationSize(xs: seq<Id>, s: set<Id>)
    requires Enumerates(xs, s)
    ensures |xs| == |s|
  {
    if xs != [] {
      var rest := s - {xs[0]};
      forall x ensures x in xs[1..] <==> x in rest {
        if x in xs[1..] {
          var j :| 0 <= j < |xs[1..]| && xs[1..][j] == x;
          assert xs[j + 1] == x && xs[0] != xs[j + 1];
        }
      }
      EnumerationSize(xs[1..], rest);
    }
  }
}
