/**
 * Header extraction: `next((h['value'] for h in headers if h['name'] == key), default)`,
 * the value of the first header whose name equals the key exactly (case-sensitively),
 * or a default when there is none.
 */
module Headers {
  import opened Provider

  /** Header i is the first one whose name is key. */
  ghost predicate FirstNamed(headers: seq<Header>, key: string, i: int)
  {
    0 <= i < |headers| && headers[i].name == key &&
    forall j | 0 <= j < i :: headers[j].name != key
  }

  /** No header is named key. */
  ghost predicate Absent(headers: seq<Header>, key: string)
  {
    forall i | 0 <= i < |headers| :: headers[i].name != key
  }

  function Lookup(headers: seq<Header>, key: string, default: string): string
  {
    if headers == [] then default
    else if headers[0].name == key then headers[0].value
    else Lookup(headers[1..], key, default)
  }

  /** Lookup gives the first header's value when some header is named key, the default otherwise. */
  lemma {:induction false} LookupFirst(headers: seq<Header>, key: string, default: string)
    ensures Absent(headers, key) ==> Lookup(headers, key, default) == default
    ensures forall i | FirstNamed(headers, key, i) :: Lookup(headers, key, default) == headers[i].value
  {
    if headers != [] && headers[0].name != key {
      LookupFirst(headers[1..], key, default);
      assert forall i | FirstNamed(headers, key, i) :: FirstNamed(headers[1..], key, i - 1);
    }
  }

  /** Whenever some header is named key, exactly one of them is the first. */
  lemma {:induction false} FirstNamedExists(headers: seq<Header>, key: string)
    requires !Absent(headers, key)
    ensures exists i :: FirstNamed(headers, key, i)
    ensures forall i, j | FirstNamed(headers, key, i) && FirstNamed(headers, key, j) :: i == j
  {
    if headers[0].name == key {
      assert FirstNamed(headers, key, 0);
    } else {
      assert !Absent(headers[1..], key) by {
        var i :| 0 <= i < |headers| && headers[i].name == key;
        assert headers[1..][i - 1].name == key;
      }
      FirstNamedExists(headers[1..], key);
      var i :| FirstNamed(headers[1..], key, i);
      assert FirstNamed(headers, key, i + 1);
    }
  }

  /** Headers after the first match never influence the result. */
  lemma {:induction false} LookupIgnoresLater(headers: seq<Header>, rest: seq<Header>, key: string, default: string)
    requires !Absent(headers, key)
    ensures Lookup(headers + rest, key, default) == Lookup(headers, key, default)
  {
    if headers[0].name != key {
      assert !Absent(headers[1..], key) by {
        var i :| 0 <= i < |headers| && headers[i].name == key;
        assert headers[1..][i - 1].name == key;
      }
      assert (headers + rest)[1..] == headers[1..] + rest;
      LookupIgnoresLater(headers[1..], rest, key, default);
    }
  }

  /** Headers with other names in front of the first match are skipped over. */
  lemma {:induction false} LookupSkipsOthers(others: seq<Header>, rest: seq<Header>, key: string, default: string)
    requires Absent(others, key)
    ensures Lookup(others + rest, key, default) == Lookup(rest, key, default)
  {
    if others != [] {
      var whole := others + rest;
      assert whole[0] == others[0] && whole[0].name != key;
      assert whole[1..] == others[1..] + rest;
      assert Absent(others[1..], key) by {
        forall i | 0 <= i < |others| - 1 ensures others[1..][i].name != key {
          assert others[1..][i] == others[i + 1];
        }
      }
      assert Lookup(whole, key, default) == Lookup(whole[1..], key, default);
      LookupSkipsOthers(others[1..], rest, key, default);
    } else {
      assert others + rest == rest;
    }
  }

  const SubjectDefault := "No Subject"
  const SenderDefault := "Unknown"
  const DateDefault := ""

  /** The subject the fetcher and the dashboard show for a message. */
  function Subject(m: Message): string
  {
    Lookup(m.headers, "Subject", SubjectDefault)
  }

  /** The sender the fetcher shows for a message. */
  function Sender(m: Message): string
  {
    Lookup(m.headers, "From", SenderDefault)
  }

  /** The date the fetcher shows for a message, unparsed. */
  function Date(m: Message): string
  {
    Lookup(m.headers, "Date", DateDefault)
  }

  /**
   * The three fields of a message: each is the value of the first header with
   * that exact name, or "No Subject", "Unknown" and "" when there is none.
   */
  lemma MessageFields(m: Message)
    ensures Absent(m.headers, "Subject") ==> Subject(m) == "No Subject"
    ensures Absent(m.headers, "From") ==> Sender(m) == "Unknown"
    ensures Absent(m.headers, "Date") ==> Date(m) == ""
    ensures forall i | FirstNamed(m.headers, "Subject", i) :: Subject(m) == m.headers[i].value
    ensures forall i | FirstNamed(m.headers, "From", i) :: Sender(m) == m.headers[i].value
    ensures forall i | FirstNamed(m.headers, "Date", i) :: Date(m) == m.headers[i].value
  {
    LookupFirst(m.headers, "Subject", SubjectDefault);
    LookupFirst(m.headers, "From", SenderDefault);
    LookupFirst(m.headers, "Date", DateDefault);
  }
}
