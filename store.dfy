/** The MongoDB collections behind the API routes (users, tokens,
    hospitals), as sequences of documents in insertion order, and the
    document operations the routes use: look-up by email, `$set`, and the
    projection that drops the password. */
module Store {
  import opened Common

  /** A stored field value. `Id(n)` is a document's `_id`, `Date(ms)` a
      timestamp; nested arrays and objects are carried as their JSON text. */
  datatype Value =
    | Str(s: string)
    | Num(x: real)
    | Bool(b: bool)
    | Null
    | Date(ms: int)
    | Id(n: nat)
    | Compound(json: string)

  /** JavaScript truthiness of a stored value. */
  predicate IsTruthy(v: Value) {
    match v
    case Str(s) => s != ""
    case Num(x) => x != 0.0
    case Bool(b) => b
    case Null => false
    case _ => true
  }

  type Doc = map<string, Value>

  /** The string in a document's `email` field, if it holds one. */
  function EmailOf(d: Doc): (r: Option<string>)
    ensures r.Some? <==> "email" in d && d["email"].Str?
    ensures r.Some? ==> d["email"] == Str(r.value)
  {
    if "email" in d && d["email"].Str? then Some(d["email"].s) else None
  }

  /** `findOne({ email })`: the position of the first document whose email
      is the given string. */
  function FindByEmail(docs: seq<Doc>, email: string): (r: Option<nat>)
    ensures r.None? <==> forall i :: 0 <= i < |docs| ==> EmailOf(docs[i]) != Some(email)
    ensures r.Some? ==> r.value < |docs| && EmailOf(docs[r.value]) == Some(email)
                        && forall i :: 0 <= i < r.value ==> EmailOf(docs[i]) != Some(email)
  {
    if docs == [] then None
    else if EmailOf(docs[0]) == Some(email) then Some(0)
    else
      var r := FindByEmail(docs[1..], email);
      assert forall i :: 1 <= i < |docs| ==> docs[i] == docs[1..][i - 1];
      match r
      case None => None
      case Some(i) => Some(i + 1)
  }

  /** No two users share an email address. */
  ghost predicate EmailsUnique(docs: seq<Doc>) {
    forall i, j :: 0 <= i < j < |docs| && EmailOf(docs[i]).Some? ==> EmailOf(docs[i]) != EmailOf(docs[j])
  }

  /** `$set: fields`: the given fields take the new values, the others keep
      theirs. */
  function SetFields(d: Doc, fields: Doc): (r: Doc)
    ensures r.Keys == d.Keys + fields.Keys
    ensures forall k :: k in fields ==> r[k] == fields[k]
    ensures forall k :: k in d && k !in fields ==> r[k] == d[k]
  {
    d + fields
  }

  /** `$set` applied to the first document with the given email; without
      one, nothing changes. */
  function UpdateByEmail(docs: seq<Doc>, email: string, fields: Doc): (r: seq<Doc>)
    ensures |r| == |docs|
    ensures FindByEmail(docs, email).None? ==> r == docs
    ensures FindByEmail(docs, email).Some? ==>
              var i := FindByEmail(docs, email).value;
              r[i] == SetFields(docs[i], fields) && forall j :: 0 <= j < |docs| && j != i ==> r[j] == docs[j]
  {
    match FindByEmail(docs, email)
    case None => docs
    case Some(i) => docs[i := SetFields(docs[i], fields)]
  }

  /** An update that leaves `email` alone finds the same document again. */
  lemma UpdateKeepsLookup(docs: seq<Doc>, email: string, fields: Doc)
    requires "email" !in fields
    ensures FindByEmail(UpdateByEmail(docs, email, fields), email) == FindByEmail(docs, email)
  {
    var r := UpdateByEmail(docs, email, fields);
    assert forall j :: 0 <= j < |docs| ==> EmailOf(r[j]) == EmailOf(docs[j]);
    FindByEmailSameEmails(docs, r, email);
  }

  /** The look-up only depends on the documents' emails. */
  lemma {:induction false} FindByEmailSameEmails(a: seq<Doc>, b: seq<Doc>, email: string)
    requires |a| == |b| && forall j :: 0 <= j < |a| ==> EmailOf(a[j]) == EmailOf(b[j])
    ensures FindByEmail(a, email) == FindByEmail(b, email)
  {
    if a != [] {
      assert forall j :: 0 <= j < |a| - 1 ==> a[1..][j] == a[j + 1] && b[1..][j] == b[j + 1];
      FindByEmailSameEmails(a[1..], b[1..], email);
    }
  }

  /** The projection `{ password: 0 }`. */
  function WithoutPassword(d: Doc): (r: Doc)
    ensures "password" !in r
    ensures forall k :: k in d && k != "password" <==> k in r
    ensures forall k :: k in r ==> r[k] == d[k]
  {
    d - {"password"}
  }

  /** The database: whether it can be reached, and its three collections. */
  class Db {
    var online: bool
    var users: seq<Doc>
    var tokens: seq<Doc>
    var hospitals: seq<Doc>

    constructor(online: bool, users: seq<Doc>, tokens: seq<Doc>, hospitals: seq<Doc>)
      ensures this.online == online && this.users == users && this.tokens == tokens && this.hospitals == hospitals
    {
      this.online := online;
      this.users := users;
      this.tokens := tokens;
      this.hospitals := hospitals;
    }
  }
}
