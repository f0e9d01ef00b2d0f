/** The User collection and the user controller (controllers/usercontroller.js):
    listing, reading, updating and deleting users by id. The collection is a
    sequence in insertion order; `findById` is the first record with that id.

    A user's `password` field holds text, or is missing. `register` and
    `resetPassword` store a bcrypt digest there, kept symbolic: the digest's
    text records the key bcrypt hashed, and `bcrypt.compare(p, text)` holds
    exactly when the text reads back as a digest of `p`'s key. Salting and the
    hash function itself are not modelled. */
module Users {
  import opened Outcomes
  import opened Pagination

  /** The UTF-8 bytes of one character. */
  function Utf8Char(c: char): (b: seq<int>)
    ensures 1 <= |b| <= 4
    ensures c as int < 0x80 ==> b == [c as int]
    ensures forall i :: 0 <= i < |b| ==> 0 <= b[i] < 0x100
    ensures c != '\0' ==> forall i :: 0 <= i < |b| ==> b[i] != 0
  {
    var n := c as int;
    if n < 0x80 then [n]
    else if n < 0x800 then [0xC0 + n / 0x40, 0x80 + n % 0x40]
    else if n < 0x10000 then [0xE0 + n / 0x1000, 0x80 + (n / 0x40) % 0x40, 0x80 + n % 0x40]
    else [0xF0 + n / 0x40000, 0x80 + (n / 0x1000) % 0x40, 0x80 + (n / 0x40) % 0x40, 0x80 + n % 0x40]
  }

  /** The UTF-8 encoding of a string, as bcryptjs takes it. */
  function Utf8(s: string): (b: seq<int>)
    ensures |b| >= |s|
    ensures forall i :: 0 <= i < |b| ==> 0 <= b[i] < 0x100
  {
    if s == [] then [] else Utf8Char(s[0]) + Utf8(s[1..])
  }

  /** bcrypt's key schedule reads this many bytes of key. */
  const BcryptMaxBytes := 72

  /** The key bcryptjs hashes for `p` under a `$2a$`/`$2b$` salt: the UTF-8
      bytes of `p` with a NUL byte appended, repeated from the start for as
      long as the key schedule reads, which is 72 bytes. */
  function BcryptKey(p: string): (k: seq<int>)
    ensures |k| == BcryptMaxBytes
    ensures forall i :: 0 <= i < |k| ==> 0 <= k[i] < 0x100
  {
    var b := Utf8(p) + [0];
    seq(BcryptMaxBytes, i requires 0 <= i < BcryptMaxBytes => b[Wrap(i, |b|)])
  }

  /** The position `i` lands on when a sequence of length `m` is read round
      and round. */
  function Wrap(i: nat, m: nat): (r: nat)
    requires m > 0
    ensures r < m
    decreases i
  {
    if i < m then i else Wrap(i - m, m)
  }

  /** Up to the appended NUL, the key is the password's own bytes. */
  lemma KeyAt(p: string, i: nat)
    requires i < BcryptMaxBytes && i <= |Utf8(p)|
    ensures BcryptKey(p)[i] == if i < |Utf8(p)| then Utf8(p)[i] else 0
  {
    var b := Utf8(p) + [0];
    assert BcryptKey(p)[i] == b[Wrap(i, |b|)];
  }

  /** The start of every digest's text. */
  const DigestPrefix := "$2a$10$"

  /** One character per byte. */
  function Chars(bytes: seq<int>): (t: string)
    requires forall i :: 0 <= i < |bytes| ==> 0 <= bytes[i] < 0x100
    ensures |t| == |bytes| && forall i :: 0 <= i < |t| ==> t[i] as int == bytes[i]
  {
    seq(|bytes|, i requires 0 <= i < |bytes| => bytes[i] as char)
  }

  /** One byte per character. */
  function Bytes(t: string): (bytes: seq<int>)
    ensures |bytes| == |t| && forall i :: 0 <= i < |t| ==> bytes[i] == t[i] as int
  {
    seq(|t|, i requires 0 <= i < |t| => t[i] as int)
  }

  /** The text stored for a digest of `key`: the prefix, then one character per
      key byte, standing for bcrypt's salt and hash. */
  function DigestText(key: seq<int>): (t: string)
    requires forall i :: 0 <= i < |key| ==> 0 <= key[i] < 0x100
  {
    DigestPrefix + Chars(key)
  }

  /** `bcrypt.compare` reading a stored text as a digest: the key it records,
      or `None` for text that is not one. */
  function ParseDigest(t: string): (k: Option<seq<int>>)
    ensures k.Some? ==> && |k.value| == BcryptMaxBytes
                        && (forall i :: 0 <= i < |k.value| ==> 0 <= k.value[i] < 0x100)
                        && DigestText(k.value) == t
  {
    var n := |DigestPrefix|;
    if |t| == n + BcryptMaxBytes && DigestPrefix <= t && forall i :: n <= i < |t| ==> t[i] as int < 0x100 then
      var body := t[n..];
      var k := Bytes(body);
      assert Chars(k) == body;
      assert DigestPrefix + body == t;
      Some(k)
    else None
  }

  /** A digest's text reads back as the key it was written for. */
  lemma DigestRoundTrip(key: seq<int>)
    requires |key| == BcryptMaxBytes && forall i :: 0 <= i < |key| ==> 0 <= key[i] < 0x100
    ensures ParseDigest(DigestText(key)) == Some(key)
  {
    var t := DigestText(key);
    assert t[|DigestPrefix|..] == Chars(key);
    assert Bytes(Chars(key)) == key;
  }

  /** `bcrypt.hash(p, 10)`: the text of a digest of `p`'s key. */
  function Hash(p: string): (t: string)
    ensures ParseDigest(t) == Some(BcryptKey(p))
  {
    DigestRoundTrip(BcryptKey(p));
    DigestText(BcryptKey(p))
  }

  /** `bcrypt.compare(password, stored)` for a stored text. */
  predicate Matches(password: string, stored: string) {
    ParseDigest(stored) == Some(BcryptKey(password))
  }

  /** A password matches a hash exactly when bcrypt sees the same key in both. */
  lemma MatchesHash(p: string, q: string)
    ensures Matches(q, Hash(p)) <==> BcryptKey(q) == BcryptKey(p)
  {
  }

  predicate IsAscii(s: string) {
    forall i :: 0 <= i < |s| ==> s[i] as int < 0x80
  }

  predicate NulFree(s: string) {
    forall i :: 0 <= i < |s| ==> s[i] != '\0'
  }

  /** Encoding a concatenation encodes the parts one after the other. */
  lemma {:induction false} Utf8Append(a: string, b: string)
    ensures Utf8(a + b) == Utf8(a) + Utf8(b)
    decreases |a|
  {
    if a == [] {
      assert a + b == b;
    } else {
      assert (a + b)[0] == a[0];
      assert (a + b)[1..] == a[1..] + b;
      Utf8Append(a[1..], b);
    }
  }

  /** An ASCII string encodes to one byte per character, the character's code. */
  lemma {:induction false} AsciiUtf8(s: string)
    requires IsAscii(s)
    ensures |Utf8(s)| == |s|
    ensures forall i :: 0 <= i < |s| ==> Utf8(s)[i] == s[i] as int
    decreases |s|
  {
    if s != [] {
      assert IsAscii(s[1..]) by {
        forall i | 0 <= i < |s[1..]| ensures s[1..][i] as int < 0x80 {
          assert s[1..][i] == s[i + 1];
        }
      }
      AsciiUtf8(s[1..]);
      assert Utf8(s) == [s[0] as int] + Utf8(s[1..]);
      forall i | 0 <= i < |s| ensures Utf8(s)[i] == s[i] as int {
        if i > 0 { assert s[1..][i - 1] == s[i]; }
      }
    }
  }

  /** The key of an ASCII password at a position before 72: its character there,
      or the NUL right after it. */
  lemma AsciiKeyAt(a: string, i: nat)
    requires IsAscii(a) && i <= |a| && i < BcryptMaxBytes
    ensures BcryptKey(a)[i] == if i < |a| then a[i] as int else 0
  {
    AsciiUtf8(a);
    KeyAt(a, i);
  }

  /** Two different ASCII passwords of at most 72 characters and without NUL
      characters never share a key. */
  lemma ShortAsciiKeysDiffer(a: string, b: string)
    requires IsAscii(a) && IsAscii(b) && NulFree(a) && NulFree(b)
    requires |a| <= BcryptMaxBytes && |b| <= BcryptMaxBytes && a != b
    ensures BcryptKey(a) != BcryptKey(b)
  {
    if |a| == |b| {
      var i :| 0 <= i < |a| && a[i] != b[i];
      AsciiKeyAt(a, i);
      AsciiKeyAt(b, i);
    } else if |a| < |b| {
      AsciiKeyAt(a, |a|);
      AsciiKeyAt(b, |a|);
    } else {
      AsciiKeyAt(a, |b|);
      AsciiKeyAt(b, |b|);
    }
  }

  /** A NUL character inside a password can make it equal to a shorter one:
      "ab" and "ab", NUL, "ab" both give the key "ab", NUL repeated. */
  lemma NulPasswordsCollide()
    ensures BcryptKey("ab") == BcryptKey("ab\0ab")
  {
    ShortUtf8();
    DoubledKeys("ab", "ab\0ab");
  }

  /** A password whose bytes and NUL are another's twice over has its key. */
  lemma DoubledKeys(p: string, q: string)
    requires Utf8(q) + [0] == (Utf8(p) + [0]) + (Utf8(p) + [0])
    ensures BcryptKey(p) == BcryptKey(q)
  {
    var b := Utf8(p) + [0];
    forall i | 0 <= i < BcryptMaxBytes
      ensures BcryptKey(p)[i] == BcryptKey(q)[i]
    {
      assert BcryptKey(p)[i] == b[Wrap(i, |b|)];
      assert BcryptKey(q)[i] == (b + b)[Wrap(i, 2 * |b|)];
      WrapDouble(b, i);
    }
  }

  lemma ShortUtf8()
    ensures Utf8("ab") == [97, 98]
    ensures Utf8("ab\0ab") == [97, 98, 0, 97, 98]
  {
    assert "ab"[1..] == "b" && "b"[1..] == "";
    assert "ab\0ab"[1..] == "b\0ab" && "b\0ab"[1..] == "\0ab" && "\0ab"[1..] == "ab";
  }

  /** Reading a sequence twice over round and round is reading it round and
      round. */
  lemma {:induction false} WrapDouble(b: seq<int>, i: nat)
    requires |b| > 0
    ensures (b + b)[Wrap(i, 2 * |b|)] == b[Wrap(i, |b|)]
    decreases i
  {
    var m := |b|;
    if i < m {
    } else if i < 2 * m {
      assert Wrap(i, m) == Wrap(i - m, m);
    } else {
      assert Wrap(i, m) == Wrap(i - m, m) == Wrap(i - 2 * m, m);
      WrapDouble(b, i - 2 * m);
    }
  }

  /** Whatever follows the 72nd byte of a password is ignored: an ASCII password
      of 72 characters or more has the same key with anything appended. */
  lemma LongPasswordKeyIgnoresSuffix(a: string, suffix: string)
    requires IsAscii(a) && |a| >= BcryptMaxBytes
    ensures BcryptKey(a + suffix) == BcryptKey(a)
  {
    AsciiUtf8(a);
    Utf8Append(a, suffix);
    forall i | 0 <= i < BcryptMaxBytes
      ensures BcryptKey(a + suffix)[i] == BcryptKey(a)[i]
    {
      KeyAt(a + suffix, i);
      KeyAt(a, i);
    }
  }

  /** A user document; `password` is `None` once the field has been removed. */
  datatype User = User(id: string, username: string, email: string, password: Option<string>, role: string)

  type UserStore = seq<User>

  /** A user as `.select('-password')` returns it. */
  datatype PublicUser = PublicUser(id: string, username: string, email: string, role: string)

  /** The `user` object of the delete reply. */
  datatype DeletedUser = DeletedUser(id: string, email: string, username: string)

  function Public(u: User): (v: PublicUser)
    ensures v.id == u.id && v.username == u.username && v.email == u.email && v.role == u.role
  {
    PublicUser(u.id, u.username, u.email, u.role)
  }

  /** The first user satisfying `P`, by position. */
  function FindFirst(st: UserStore, P: User -> bool): (r: Option<nat>)
    ensures r.Some? ==> r.value < |st| && P(st[r.value])
    ensures r.Some? ==> forall j :: 0 <= j < r.value ==> !P(st[j])
    ensures r.None? ==> forall j :: 0 <= j < |st| ==> !P(st[j])
  {
    if st == [] then None
    else if P(st[0]) then Some(0)
    else
      match FindFirst(st[1..], P)
      case None => None
      case Some(k) => Some(k + 1)
  }

  function FindById(st: UserStore, id: string): (r: Option<nat>)
    ensures r.Some? ==> r.value < |st| && st[r.value].id == id
    ensures r.Some? ==> forall j :: 0 <= j < r.value ==> st[j].id != id
    ensures r.None? ==> forall j :: 0 <= j < |st| ==> st[j].id != id
  {
    FindFirst(st, (u: User) => u.id == id)
  }

  function FindByEmail(st: UserStore, email: string): (r: Option<nat>)
    ensures r.Some? ==> r.value < |st| && st[r.value].email == email
    ensures r.Some? ==> forall j :: 0 <= j < r.value ==> st[j].email != email
    ensures r.None? ==> forall j :: 0 <= j < |st| ==> st[j].email != email
  {
    FindFirst(st, (u: User) => u.email == email)
  }

  /** Ids and emails are unique across the collection. */
  predicate WellFormed(st: UserStore) {
    forall i, j :: 0 <= i < j < |st| ==> st[i].id != st[j].id && st[i].email != st[j].email
  }

  const MsgInvalidId := "Invalid user id"
  const MsgUserMissing := "User does not exist"
  const MsgUserNotFound := "User not found"
  /** Mongoose's error for a lookup by an id that is not an ObjectId. */
  const MsgCastError := "Cast to ObjectId failed"

  /** `getUser`. */
  function GetUser(id: string, st: UserStore): (r: Result<PublicUser>)
    ensures !ValidObjectId(id) ==> r == Err(BadRequest(MsgInvalidId))
    ensures ValidObjectId(id) && FindById(st, id).None? ==> r == Err(NotFound(MsgUserMissing))
    ensures r.Ok? <==> ValidObjectId(id) && exists j :: 0 <= j < |st| && st[j].id == id
    ensures r.Ok? ==> exists j :: 0 <= j < |st| && st[j].id == id && r.value == Public(st[j])
  {
    if !ValidObjectId(id) then Err(BadRequest(MsgInvalidId))
    else
      match FindById(st, id)
      case None => Err(NotFound(MsgUserMissing))
      case Some(j) => Ok(Public(st[j]))
  }

  /** The request body of `updateUser`: its plain fields, and what it puts under
      the `$set` and `$unset` update operators (empty when it has neither). */
  datatype Update = Update(fields: map<string, string>, setOp: map<string, string>, unsetOp: set<string>)

  /** The `$set` that reaches MongoDB: `delete update.password` removes the
      plain `password` field only, and Mongoose then folds the remaining plain
      fields into `$set`, each overriding a `$set` entry of the same name. */
  function EffectiveSet(upd: Update): (s: map<string, string>)
    ensures "password" in s <==> "password" in upd.setOp
    ensures "password" in s ==> s["password"] == upd.setOp["password"]
    ensures forall f :: f in upd.fields && f != "password" ==> f in s && s[f] == upd.fields[f]
    ensures forall f :: f in s && f !in upd.fields ==> f in upd.setOp && s[f] == upd.setOp[f]
    ensures forall f :: f in s ==> f in upd.fields || f in upd.setOp
  {
    upd.setOp + (upd.fields - {"password"})
  }

  /** MongoDB refuses an update that both sets and removes the same path. */
  predicate Conflicting(upd: Update) {
    "password" in upd.setOp && "password" in upd.unsetOp
  }

  /** The field as the update leaves it: set, removed, or kept. */
  function NewPassword(current: Option<string>, upd: Update): (r: Option<string>)
    ensures "password" in upd.setOp ==> r == Some(upd.setOp["password"])
    ensures "password" !in upd.setOp && "password" in upd.unsetOp ==> r.None?
    ensures "password" !in upd.setOp && "password" !in upd.unsetOp ==> r == current
  {
    if "password" in upd.setOp then Some(upd.setOp["password"])
    else if "password" in upd.unsetOp then None
    else current
  }

  /** `findByIdAndUpdate` applying the update to one user: the schema's fields
      named in the effective `$set` take its values (names the schema does not
      know are dropped), and `$unset` of `password` removes that field. */
  function Apply(u: User, upd: Update): (v: User)
    ensures v.id == u.id
    ensures v.username == (if "username" in EffectiveSet(upd) then EffectiveSet(upd)["username"] else u.username)
    ensures v.email == (if "email" in EffectiveSet(upd) then EffectiveSet(upd)["email"] else u.email)
    ensures v.role == (if "role" in EffectiveSet(upd) then EffectiveSet(upd)["role"] else u.role)
    ensures v.password == NewPassword(u.password, upd)
  {
    var set' := EffectiveSet(upd);
    u.(username := if "username" in set' then set'["username"] else u.username,
       email := if "email" in set' then set'["email"] else u.email,
       role := if "role" in set' then set'["role"] else u.role,
       password := NewPassword(u.password, upd))
  }

  datatype UserWrite = UserWrite(result: Result<PublicUser>, store: UserStore)

  /** MongoDB's refusal of an update whose operators clash on one path. */
  const MsgUpdateConflict := "Updating the path 'password' would create a conflict at 'password'"

  /** `updateUser`. The update's operators are parsed before any document is
      looked at, so a clash is reported whether or not the id exists. */
  function UpdateUser(id: string, upd: Update, st: UserStore): (w: UserWrite)
    ensures !ValidObjectId(id) ==> w == UserWrite(Err(BadRequest(MsgInvalidId)), st)
    ensures ValidObjectId(id) && Conflicting(upd) ==> w == UserWrite(Err(Internal(MsgUpdateConflict)), st)
    ensures ValidObjectId(id) && !Conflicting(upd) && FindById(st, id).None? ==>
              w == UserWrite(Err(NotFound(MsgUserNotFound)), st)
    ensures w.result.Err? ==> w.store == st
    ensures |w.store| == |st|
    ensures forall j :: 0 <= j < |st| ==> w.store[j].id == st[j].id
    ensures w.result.Ok? <==> ValidObjectId(id) && !Conflicting(upd) && FindById(st, id).Some?
    ensures w.result.Ok? ==> var j := FindById(st, id).value;
                             && w.store == st[j := Apply(st[j], upd)]
                             && w.result.value == Public(Apply(st[j], upd))
  {
    if !ValidObjectId(id) then UserWrite(Err(BadRequest(MsgInvalidId)), st)
    else if Conflicting(upd) then UserWrite(Err(Internal(MsgUpdateConflict)), st)
    else
      match FindById(st, id)
      case None => UserWrite(Err(NotFound(MsgUserNotFound)), st)
      case Some(j) =>
        var u := Apply(st[j], upd);
        UserWrite(Ok(Public(u)), st[j := u])
  }

  /** A plain `password` field in the body has no effect: the update does
      exactly what it does without it. */
  lemma UpdateIgnoresPassword(id: string, upd: Update, st: UserStore, pw: string)
    ensures UpdateUser(id, upd.(fields := upd.fields["password" := pw]), st)
         == UpdateUser(id, upd.(fields := upd.fields - {"password"}), st)
  {
    assert EffectiveSet(upd.(fields := upd.fields["password" := pw]))
        == EffectiveSet(upd.(fields := upd.fields - {"password"}));
  }

  /** What `delete update.password` leaves open: a body whose `$set` names
      `password` writes that text into the user's stored password, and one
      whose `$unset` names it removes the field. */
  lemma OperatorsReachPassword(id: string, st: UserStore, text: string)
    requires ValidObjectId(id) && FindById(st, id).Some?
    ensures var j := FindById(st, id).value;
            && UpdateUser(id, Update(map[], map["password" := text], {}), st).store[j].password == Some(text)
            && UpdateUser(id, Update(map[], map[], {"password"}), st).store[j].password.None?
  {
  }

  /** The update the route evidently intends: besides the plain field, the
      operators' `password` entries are dropped as well. */
  function WithoutPassword(upd: Update): (r: Update)
    ensures r.fields == upd.fields - {"password"}
    ensures "password" !in r.setOp && "password" !in r.unsetOp
    ensures forall f :: f != "password" ==> (f in r.setOp <==> f in upd.setOp) && (f in r.unsetOp <==> f in upd.unsetOp)
    ensures forall f :: f in r.setOp ==> r.setOp[f] == upd.setOp[f]
  {
    Update(upd.fields - {"password"}, upd.setOp - {"password"}, upd.unsetOp - {"password"})
  }

  /** `updateUser` with that correction: no stored password ever changes, and
      every other field changes as the route changes it. */
  function UpdateUserIntended(id: string, upd: Update, st: UserStore): (w: UserWrite)
    ensures |w.store| == |st|
    ensures forall j :: 0 <= j < |st| ==> w.store[j].password == st[j].password && w.store[j].id == st[j].id
    ensures w.result.Ok? <==> ValidObjectId(id) && FindById(st, id).Some?
    ensures w.result.Ok? ==> var j := FindById(st, id).value;
                             && Public(w.store[j]) == Public(Apply(st[j], upd))
                             && w.result.value == Public(Apply(st[j], upd))
  {
    assert EffectiveSet(WithoutPassword(upd)) == EffectiveSet(upd) - {"password"};
    UpdateUser(id, WithoutPassword(upd), st)
  }

  /** Only the ids decide which user a lookup by id finds. */
  lemma FindByIdSameIds(st: UserStore, st': UserStore, id: string)
    requires |st| == |st'| && forall k :: 0 <= k < |st| ==> st'[k].id == st[k].id
    ensures FindById(st', id) == FindById(st, id)
  {
    var r, r' := FindById(st, id), FindById(st', id);
    if r.Some? {
      assert st'[r.value].id == id;
    }
    if r'.Some? {
      assert st[r'.value].id == id;
    }
  }

  /** Replaying an update changes nothing more: the second run finds the same
      user, replies the same and leaves the same collection. */
  lemma UpdateIdempotent(id: string, upd: Update, st: UserStore)
    ensures var w := UpdateUser(id, upd, st);
            UpdateUser(id, upd, w.store) == w
  {
    var w := UpdateUser(id, upd, st);
    if w.result.Ok? {
      var j := FindById(st, id).value;
      FindByIdSameIds(st, w.store, id);
      assert Apply(Apply(st[j], upd), upd) == Apply(st[j], upd);
      assert w.store[j := Apply(w.store[j], upd)] == w.store;
    }
  }

  /** Read after write: once an update succeeds, `getUser` on the same id returns
      exactly what the update replied. */
  lemma UpdateThenGet(id: string, upd: Update, st: UserStore)
    requires UpdateUser(id, upd, st).result.Ok?
    ensures GetUser(id, UpdateUser(id, upd, st).store) == UpdateUser(id, upd, st).result
  {
    var j := FindById(st, id).value;
    var st' := UpdateUser(id, upd, st).store;
    assert st'[j].id == id;
    var r := FindById(st', id);
    assert r == Some(j);
  }

  datatype UserDelete = UserDelete(result: Result<DeletedUser>, store: UserStore)

  /** `deleteUser`: the reply names only the id, email and username of the
      removed user. */
  function DeleteUser(id: string, st: UserStore): (d: UserDelete)
    ensures !ValidObjectId(id) ==> d == UserDelete(Err(BadRequest(MsgInvalidId)), st)
    ensures ValidObjectId(id) && FindById(st, id).None? ==> d == UserDelete(Err(NotFound(MsgUserMissing)), st)
    ensures d.result.Err? ==> d.store == st
    ensures d.result.Ok? <==> ValidObjectId(id) && FindById(st, id).Some?
    ensures d.result.Ok? ==> && |d.store| == |st| - 1
                             && d.result.value.id == id
                             && var j := FindById(st, id).value;
                                && d.result.value == DeletedUser(st[j].id, st[j].email, st[j].username)
                                && d.store == st[..j] + st[j + 1..]
  {
    if !ValidObjectId(id) then UserDelete(Err(BadRequest(MsgInvalidId)), st)
    else
      match FindById(st, id)
      case None => UserDelete(Err(NotFound(MsgUserMissing)), st)
      case Some(j) => UserDelete(Ok(DeletedUser(st[j].id, st[j].email, st[j].username)), st[..j] + st[j + 1..])
  }

  /** Entry `k` of a sequence with entry `j` removed. */
  lemma RemovedAt(st: UserStore, j: nat, k: nat)
    requires j < |st| && k < |st| - 1
    ensures (st[..j] + st[j + 1..])[k] == st[if k < j then k else k + 1]
  {
  }

  /** In a well-formed collection a delete removes exactly the user with that id
      and keeps the collection well formed. */
  lemma DeleteRemovesExactlyThatUser(id: string, st: UserStore)
    requires WellFormed(st)
    requires DeleteUser(id, st).result.Ok?
    ensures var st' := DeleteUser(id, st).store;
            && WellFormed(st')
            && (forall k :: 0 <= k < |st'| ==> st'[k].id != id)
            && (forall u :: u in st && u.id != id ==> u in st')
  {
    var j := FindById(st, id).value;
    var st' := st[..j] + st[j + 1..];
    assert DeleteUser(id, st).store == st';
    forall k | 0 <= k < |st'|
      ensures st'[k].id != id
    {
      RemovedAt(st, j, k);
    }
    forall u | u in st && u.id != id
      ensures u in st'
    {
      var k :| 0 <= k < |st| && st[k] == u;
      var k' := if k < j then k else k - 1;
      RemovedAt(st, j, k');
    }
    forall a, b | 0 <= a < b < |st'|
      ensures st'[a].id != st'[b].id && st'[a].email != st'[b].email
    {
      RemovedAt(st, j, a);
      RemovedAt(st, j, b);
    }
  }

  /** After a delete in a well-formed collection the id is gone: `getUser` on it
      reports that the user does not exist. */
  lemma DeleteThenGet(id: string, st: UserStore)
    requires WellFormed(st)
    requires DeleteUser(id, st).result.Ok?
    ensures GetUser(id, DeleteUser(id, st).store) == Err(NotFound(MsgUserMissing))
  {
    DeleteRemovesExactlyThatUser(id, st);
  }

  /** The query of `getAllUsers`; `search` (a regular expression over username and
      email) is not modelled. */
  datatype UserQuery = UserQuery(page: Option<int>, limit: Option<int>)

  datatype UserMeta = UserMeta(page: int, limit: int, total: nat, pages: nat)

  datatype UserListing = UserListing(data: seq<PublicUser>, meta: UserMeta)

  function PublicAll(us: seq<User>): (r: seq<PublicUser>)
    ensures |r| == |us| && forall k :: 0 <= k < |us| ==> r[k] == Public(us[k])
  {
    if us == [] then [] else [Public(us[0])] + PublicAll(us[1..])
  }

  /** `getAllUsers` over the users in the order the query sorts them (newest first):
      one page of them, without passwords, and the paging figures. */
  function GetAllUsers(q: UserQuery, listed: seq<User>): (l: UserListing)
    ensures l.meta.page >= 1 && 1 <= l.meta.limit <= MaxLimit
    ensures l.meta.total == |listed|
    ensures l.meta.pages * l.meta.limit >= |listed|
    ensures l.meta.pages == 0 || (l.meta.pages - 1) * l.meta.limit < |listed|
    ensures |l.data| <= l.meta.limit
    ensures l.meta.page == Clamp(q.page, q.limit).page && l.meta.limit == Clamp(q.page, q.limit).limit
    ensures var skip := Clamp(q.page, q.limit).skip;
            |l.data| == if skip < |listed| then Min(l.meta.limit, |listed| - skip) else 0
  {
    var p := Clamp(q.page, q.limit);
    UserListing(PublicAll(Window(listed, p)), UserMeta(p.page, p.limit, |listed|, PageCount(|listed|, p.limit)))
  }

  /** Entry `k` of the page is the password-free form of user number
      `(page - 1) * limit + k` in the sorted order. */
  lemma ListingShowsItsPage(q: UserQuery, listed: seq<User>, k: nat)
    requires k < |GetAllUsers(q, listed).data|
    ensures var m := GetAllUsers(q, listed).meta;
            (m.page - 1) * m.limit + k < |listed|
            && GetAllUsers(q, listed).data[k] == Public(listed[(m.page - 1) * m.limit + k])
  {
    var p := Clamp(q.page, q.limit);
    var w := Window(listed, p);
    assert GetAllUsers(q, listed).data == PublicAll(w);
    assert w[k] == listed[p.skip + k];
  }

  /** Every user is listed: user number `k` in the sorted order is entry
      `k % limit` of page `k / limit + 1`, a page within the reported count. */
  lemma EveryUserOnItsPage(listed: seq<User>, limit: int, k: nat)
    requires 1 <= limit <= MaxLimit && k < |listed|
    ensures var l := GetAllUsers(UserQuery(Some(k / limit + 1), Some(limit)), listed);
            && 1 <= l.meta.page <= l.meta.pages
            && k % limit < |l.data|
            && l.data[k % limit] == Public(listed[k])
  {
    EveryItemOnItsPage(listed, limit, k);
  }
}
