/** The values of the chat client's conversation list: messages, conversation
    records, and the pure list transformations (find, filter, conditional
    update) and string helpers (trim, title) that the handlers of App.js are
    built from. */
module Conversations {

  datatype Option<+T> = None | Some(value: T)

  /** A chat message, tagged by its `type` field; only an `ai` message
      records the model that produced it. */
  datatype Message =
    | Human(content: string)
    | Ai(content: string, model: string)
    | Error(content: string)

  /** A conversation record `{id, name, messages, model, timestamp}`. The id is
      the `Date.now()` number at creation, the timestamp an ISO-8601 string. */
  datatype Conversation = Conversation(
    id: int,
    name: string,
    messages: seq<Message>,
    model: string,
    timestamp: string)

  /** Name given to every new conversation. */
  const DefaultName: string := "Nova Conversa"
  /** Model selected when the application starts. */
  const DefaultModel: string := "llama-3.3-70b-versatile"
  /** Text of the message appended to the view when a request fails. */
  const ErrorText: string := "Ocorreu um erro. Por favor, tente novamente."
  /** A derived title keeps this many characters of the input ... */
  const TitleLength: nat := 20
  /** ... and gets this suffix when the input was longer. */
  const Ellipsis: string := "..."

  /** The record `createNewConversation` builds: default name, no messages,
      the currently selected model. */
  function NewConversation(id: int, model: string, timestamp: string): (c: Conversation)
    ensures c.id == id && c.name == DefaultName && c.messages == []
    ensures c.model == model && c.timestamp == timestamp
  {
    Conversation(id, DefaultName, [], model, timestamp)
  }

  // ---------------------------------------------------------------------
  // Trimming, as JavaScript's String.prototype.trim does it

  /** The characters `trim` removes: ECMAScript WhiteSpace (tab, vertical tab,
      form feed, space, no-break space, byte order mark and the other Unicode
      space separators) and LineTerminator (LF, CR, LS, PS). */
  predicate IsWhitespace(c: char) {
    c in {'\t', '\n', '\U{000B}', '\U{000C}', '\r', ' ', '\U{00A0}', '\U{1680}',
          '\U{2000}', '\U{2001}', '\U{2002}', '\U{2003}', '\U{2004}', '\U{2005}',
          '\U{2006}', '\U{2007}', '\U{2008}', '\U{2009}', '\U{200A}',
          '\U{2028}', '\U{2029}', '\U{202F}', '\U{205F}', '\U{3000}', '\U{FEFF}'}
  }

  /** A string that consists of whitespace only (the empty string included). */
  predicate IsBlank(s: string) {
    forall i :: 0 <= i < |s| ==> IsWhitespace(s[i])
  }

  /** The length of the longest whitespace prefix. */
  function LeadingWhitespace(s: string): (n: nat)
    ensures n <= |s|
    ensures forall i :: 0 <= i < n ==> IsWhitespace(s[i])
    ensures n < |s| ==> !IsWhitespace(s[n])
  {
    if |s| > 0 && IsWhitespace(s[0]) then 1 + LeadingWhitespace(s[1..]) else 0
  }

  /** The length of the longest whitespace suffix. */
  function TrailingWhitespace(s: string): (n: nat)
    ensures n <= |s|
    ensures forall i :: |s| - n <= i < |s| ==> IsWhitespace(s[i])
    ensures n < |s| ==> !IsWhitespace(s[|s| - 1 - n])
  {
    if |s| > 0 && IsWhitespace(s[|s| - 1]) then 1 + TrailingWhitespace(s[..|s| - 1]) else 0
  }

  /** `s.trim()`: the string without its leading and trailing whitespace.
      The result is the middle slice of `s` that starts after the leading
      whitespace; only whitespace is dropped before and after it, and it
      neither starts nor ends with whitespace. */
  function Trim(s: string): (r: string)
    ensures var k := LeadingWhitespace(s); k + |r| <= |s| && r == s[k..k + |r|]
    ensures IsBlank(s[..LeadingWhitespace(s)]) && IsBlank(s[LeadingWhitespace(s) + |r|..])
    ensures r == [] || (!IsWhitespace(r[0]) && !IsWhitespace(r[|r| - 1]))
  {
    var k := LeadingWhitespace(s);
    var t := s[k..];
    var r := t[..|t| - TrailingWhitespace(t)];
    assert s[k..][..|r|] == s[k..k + |r|];
    assert s[k + |r|..] == t[|r|..];
    r
  }

  /** The guard `!s.trim()` of the rename and send handlers holds exactly for
      blank strings. */
  lemma TrimEmptyIffBlank(s: string)
    ensures Trim(s) == [] <==> IsBlank(s)
  {
  }

  // ---------------------------------------------------------------------
  // Title derivation

  /** The title a successful send gives the current conversation:
      `input.substring(0, 20) + (input.length > 20 ? '...' : '')`.
      It is never longer than 23 characters. */
  function Title(input: string): (r: string)
    ensures |r| <= TitleLength + |Ellipsis|
    ensures |input| <= TitleLength ==> r == input
    ensures |input| > TitleLength ==>
      |r| == TitleLength + |Ellipsis| && r[..TitleLength] == input[..TitleLength] && r[TitleLength..] == Ellipsis
  {
    var keep := if |input| < TitleLength then |input| else TitleLength;
    input[..keep] + (if |input| > TitleLength then Ellipsis else "")
  }

  /** Two concrete titles: a short message is
      kept whole, a 24-character one is cut to 20 characters plus ellipsis. */
  lemma TitleExamples()
    ensures Title("Hello") == "Hello"
    ensures Title("This is a long test text") == "This is a long test ..."
  {
  }

  // ---------------------------------------------------------------------
  // The conversation list

  /** Some record of the list carries the id. */
  predicate HasId(list: seq<Conversation>, id: int) {
    exists i :: 0 <= i < |list| && list[i].id == id
  }

  /** No two records of the list share an id. */
  predicate UniqueIds(list: seq<Conversation>) {
    forall i, j :: 0 <= i < j < |list| ==> list[i].id != list[j].id
  }

  /** The current id is null or names a record of the list. */
  predicate CurrentExists(list: seq<Conversation>, current: Option<int>) {
    current.Some? ==> HasId(list, current.value)
  }

  /** `list.find(c => c.id === id)`: the first record with the id, if any. */
  function Find(list: seq<Conversation>, id: int): (r: Option<Conversation>)
    ensures r.None? <==> !HasId(list, id)
    ensures r.Some? ==>
      exists i :: 0 <= i < |list| && list[i] == r.value && r.value.id == id &&
        forall j :: 0 <= j < i ==> list[j].id != id
  {
    if list == [] then None
    else if list[0].id == id then Some(list[0])
    else
      var r := Find(list[1..], id);
      assert HasId(list, id) ==> HasId(list[1..], id) by {
        if HasId(list, id) {
          var i :| 0 <= i < |list| && list[i].id == id;
          assert list[1..][i - 1].id == id;
        }
      }
      assert r.Some? ==> (exists i :: 0 <= i < |list| && list[i] == r.value && r.value.id == id &&
                                        forall j :: 0 <= j < i ==> list[j].id != id) by {
        if r.Some? {
          var i :| 0 <= i < |list[1..]| && list[1..][i] == r.value && r.value.id == id &&
            forall j :: 0 <= j < i ==> list[1..][j].id != id;
          assert list[i + 1] == r.value;
          assert forall j :: 0 <= j < i + 1 ==> list[j].id != id by {
            forall j | 0 <= j < i + 1 ensures list[j].id != id {
              if j > 0 { assert list[j] == list[1..][j - 1]; }
            }
          }
        }
      }
      r
  }

  /** With unique ids, looking a record up by its own id yields that record. */
  lemma FindUnique(list: seq<Conversation>, k: nat)
    requires UniqueIds(list) && k < |list|
    ensures Find(list, list[k].id) == Some(list[k])
  {
  }

  /** `list.filter(c => c.id !== id)`: the records without the id, in their
      original order. */
  function RemoveId(list: seq<Conversation>, id: int): (r: seq<Conversation>)
    ensures |r| <= |list|
    ensures forall c :: c in r <==> c in list && c.id != id
    ensures !HasId(r, id)
  {
    if list == [] then []
    else if list[0].id == id then RemoveId(list[1..], id)
    else [list[0]] + RemoveId(list[1..], id)
  }

  /** Filtering distributes over concatenation: the records that survive keep
      their relative order. */
  lemma {:induction false} RemoveIdAppend(a: seq<Conversation>, b: seq<Conversation>, id: int)
    ensures RemoveId(a + b, id) == RemoveId(a, id) + RemoveId(b, id)
  {
    if a == [] {
      assert a + b == b;
    } else {
      assert (a + b)[0] == a[0];
      assert (a + b)[1..] == a[1..] + b;
      RemoveIdAppend(a[1..], b, id);
    }
  }

  /** Filtering an id that no record carries leaves the list as it is. */
  lemma {:induction false} RemoveIdAbsent(list: seq<Conversation>, id: int)
    requires !HasId(list, id)
    ensures RemoveId(list, id) == list
  {
    if list != [] {
      RemoveIdAbsent(list[1..], id);
    }
  }

  /** After filtering, exactly the ids other than the filtered one remain. */
  lemma RemoveIdHasId(list: seq<Conversation>, id: int, other: int)
    ensures HasId(RemoveId(list, id), other) <==> HasId(list, other) && other != id
  {
  }

  /** With unique ids, filtering a present id removes exactly one record,
      and the result still has unique ids. */
  lemma {:induction false} RemoveIdUnique(list: seq<Conversation>, id: int)
    requires UniqueIds(list)
    ensures UniqueIds(RemoveId(list, id))
    ensures HasId(list, id) ==> |RemoveId(list, id)| == |list| - 1
  {
    if list != [] {
      var tail := list[1..];
      assert UniqueIds(tail) by {
        forall i, j | 0 <= i < j < |tail| ensures tail[i].id != tail[j].id {
          assert tail[i] == list[i + 1] && tail[j] == list[j + 1];
        }
      }
      RemoveIdUnique(tail, id);
      var r := RemoveId(list, id);
      if list[0].id != id {
        assert UniqueIds(r) by {
          forall c | c in RemoveId(tail, id) ensures c.id != list[0].id {
            var k :| 0 <= k < |tail| && tail[k] == c;
            assert list[k + 1] == c;
          }
        }
        assert HasId(list, id) ==> HasId(tail, id) by {
          if HasId(list, id) {
            var i :| 0 <= i < |list| && list[i].id == id;
            assert tail[i - 1].id == id;
          }
        }
      } else {
        RemoveIdAbsent(tail, id);
      }
    }
  }

  /** Filtering one id does not change what `find` returns for any other id. */
  lemma {:induction false} FindRemoveId(list: seq<Conversation>, id: int, other: int)
    requires other != id
    ensures Find(RemoveId(list, id), other) == Find(list, other)
  {
    if list != [] {
      FindRemoveId(list[1..], id, other);
      if list[0].id != id {
        var r := [list[0]] + RemoveId(list[1..], id);
        assert r[0] == list[0] && r[1..] == RemoveId(list[1..], id);
      }
    }
  }

  /** The list after renaming record `id` to `name` (the `map` of the
      rename handler): that record's name and nothing else changes. */
  function RenameIn(list: seq<Conversation>, id: int, name: string): (r: seq<Conversation>)
    ensures |r| == |list|
    ensures forall i :: 0 <= i < |list| ==>
      r[i].id == list[i].id && r[i].messages == list[i].messages &&
      r[i].model == list[i].model && r[i].timestamp == list[i].timestamp
    ensures forall i :: 0 <= i < |list| ==> r[i].name == if list[i].id == id then name else list[i].name
  {
    if list == [] then []
    else
      var head := if list[0].id == id then list[0].(name := name) else list[0];
      [head] + RenameIn(list[1..], id, name)
  }

  /** After a rename, `find` returns the same record as before, renamed when
      its id is the renamed one: its messages in particular are unchanged. */
  lemma {:induction false} FindRenameIn(list: seq<Conversation>, id: int, name: string, other: int)
    ensures Find(RenameIn(list, id, name), other) ==
      if Find(list, other).Some? && other == id then Some(Find(list, other).value.(name := name))
      else Find(list, other)
  {
    if list != [] {
      FindRenameIn(list[1..], id, name, other);
      var r := RenameIn(list, id, name);
      assert r[1..] == RenameIn(list[1..], id, name);
    }
  }

  /** The list after a successful send (the `map` of the send handler): the
      current record gets the new message log, the model and timestamp of the
      reply, and a title derived from the input; every other record is
      unchanged. A null current id matches no record. */
  function RecordReply(list: seq<Conversation>, current: Option<int>, log: seq<Message>,
                       model: string, timestamp: string, input: string): (r: seq<Conversation>)
    ensures |r| == |list|
    ensures forall i :: 0 <= i < |list| ==> r[i].id == list[i].id
    ensures forall i :: 0 <= i < |list| && Some(list[i].id) != current ==> r[i] == list[i]
    ensures forall i :: 0 <= i < |list| && Some(list[i].id) == current ==>
      r[i].messages == log && r[i].model == model && r[i].timestamp == timestamp &&
      r[i].name == Title(input) && |r[i].name| <= TitleLength + |Ellipsis|
  {
    if list == [] then []
    else
      var head :=
        if Some(list[0].id) == current
        then list[0].(messages := log, model := model, timestamp := timestamp, name := Title(input))
        else list[0];
      [head] + RecordReply(list[1..], current, log, model, timestamp, input)
  }

  /** After a successful send, `find` on the current id returns the record
      that holds the new log, model, timestamp and title. */
  lemma {:induction false} FindRecordReply(list: seq<Conversation>, current: int, log: seq<Message>,
                                           model: string, timestamp: string, input: string)
    ensures Find(RecordReply(list, Some(current), log, model, timestamp, input), current) ==
      if Find(list, current).Some?
      then Some(Find(list, current).value.(messages := log, model := model, timestamp := timestamp,
                                           name := Title(input)))
      else None
  {
    if list != [] {
      FindRecordReply(list[1..], current, log, model, timestamp, input);
      var r := RecordReply(list, Some(current), log, model, timestamp, input);
      assert r[1..] == RecordReply(list[1..], Some(current), log, model, timestamp, input);
    }
  }
}
