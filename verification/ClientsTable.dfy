/**
 The table of client records that the agent keeps beside the configuration.
 Reading and writing its JSON text is left to a codec.
 */
module ClientsTable {
  import opened Wrappers

  /** A user-data value: text, or any other JSON value by its own text. */
  datatype Json = Text(s: string) | Other(raw: string)

  datatype Record = Record(clientId: string, userData: map<string, Json>)

  type Table = seq<Record>

  // ----- Specification -----

  function Refreshed(r: Record, name: string, allowedIP: string, created: string): Record {
    var d := r.userData["clientName" := Text(name)];
    var e := if allowedIP != "" then d["allowedIps" := Text(allowedIP)] else d;
    Record(r.clientId, if "creationDate" in e then e else e["creationDate" := Text(created)])
  }

  /** Refreshes the first record of the key, or appends a new one. */
  function AddOrUpdate(t: Table, key: string, name: string, allowedIP: string, created: string): Table {
    if t == [] then [Refreshed(Record(key, map[]), name, allowedIP, created)]
    else if t[0].clientId == key then [Refreshed(t[0], name, allowedIP, created)] + t[1..]
    else [t[0]] + AddOrUpdate(t[1..], key, name, allowedIP, created)
  }

  function Without(t: Table, key: string): Table {
    if t == [] then []
    else (if t[0].clientId == key then [] else [t[0]]) + Without(t[1..], key)
  }

  predicate HasClient(t: Table, key: string) {
    exists i :: 0 <= i < |t| && t[i].clientId == key
  }

  function First(t: Table, key: string): Option<Record> {
    if t == [] then None else if t[0].clientId == key then Some(t[0]) else First(t[1..], key)
  }

  lemma {:induction false} WithoutAppend(s: Table, t: Table, key: string)
    ensures Without(s + t, key) == Without(s, key) + Without(t, key)
  {
    if s == [] {
      assert s + t == t;
    } else {
      assert (s + t)[1..] == s[1..] + t;
      WithoutAppend(s[1..], t, key);
    }
  }

  lemma {:induction false} WithoutAbsent(t: Table, key: string)
    requires !HasClient(t, key)
    ensures Without(t, key) == t
  {
    if t != [] {
      assert forall i :: 0 <= i < |t[1..]| ==> t[1..][i] == t[i + 1];
      WithoutAbsent(t[1..], key);
    }
  }

  /** Adding touches no other client, and removing the key afterwards leaves
      exactly the records of the others, in their order. */
  lemma {:induction false} AddThenRemove(t: Table, key: string, name: string, allowedIP: string, created: string)
    ensures var t' := AddOrUpdate(t, key, name, allowedIP, created);
            && Without(t', key) == Without(t, key)
            && (!HasClient(t, key) ==> Without(t', key) == t)
            && (var r := First(t', key);
                r.Some? && r.value.clientId == key && "clientName" in r.value.userData
                && r.value.userData["clientName"] == Text(name) && "creationDate" in r.value.userData
                && (allowedIP != "" ==> "allowedIps" in r.value.userData && r.value.userData["allowedIps"] == Text(allowedIP)))
  {
    if t == [] {
      assert AddOrUpdate(t, key, name, allowedIP, created)[1..] == [];
    } else {
      assert t[0].clientId == key ==> HasClient(t, key);
      assert forall i :: 0 <= i < |t[1..]| ==> t[1..][i] == t[i + 1];
      if t[0].clientId != key { AddThenRemove(t[1..], key, name, allowedIP, created); }
    }
  }

  /** The record of the key after adding: its name is the new one, its address
      the new one if one is given, its date the one it had, or else the new one,
      and all other data, if there was a record, is kept. */
  lemma {:induction false} AddedRecord(t: Table, key: string, name: string, allowedIP: string, created: string)
    ensures var was, r := First(t, key), First(AddOrUpdate(t, key, name, allowedIP, created), key);
            var old_data := if was.Some? then was.value.userData else map[];
            && r.Some? && r.value.clientId == key
            && "clientName" in r.value.userData && r.value.userData["clientName"] == Text(name)
            && "creationDate" in r.value.userData
            && r.value.userData["creationDate"] == (if "creationDate" in old_data then old_data["creationDate"] else Text(created))
            && ("allowedIps" in r.value.userData <==> allowedIP != "" || "allowedIps" in old_data)
            && ("allowedIps" in r.value.userData ==>
                  r.value.userData["allowedIps"] == if allowedIP != "" then Text(allowedIP) else old_data["allowedIps"])
            && (forall k :: k != "clientName" && k != "creationDate" && k != "allowedIps" ==>
                  (k in r.value.userData <==> k in old_data) && (k in old_data ==> r.value.userData[k] == old_data[k]))
  {
    if t == [] {
      assert First(AddOrUpdate(t, key, name, allowedIP, created), key) == Some(Refreshed(Record(key, map[]), name, allowedIP, created));
    } else if t[0].clientId == key {
      assert First(AddOrUpdate(t, key, name, allowedIP, created), key) == Some(Refreshed(t[0], name, allowedIP, created));
    } else {
      AddedRecord(t[1..], key, name, allowedIP, created);
      assert ([t[0]] + AddOrUpdate(t[1..], key, name, allowedIP, created))[1..] == AddOrUpdate(t[1..], key, name, allowedIP, created);
      hide Refreshed;
    }
  }

  lemma {:induction false} AddOrUpdateAt(t: Table, i: nat, key: string, name: string, allowedIP: string, created: string)
    requires i < |t| && t[i].clientId == key && !HasClient(t[..i], key)
    ensures AddOrUpdate(t, key, name, allowedIP, created) == t[i := Refreshed(t[i], name, allowedIP, created)]
  {
    hide Refreshed;
    if i > 0 {
      assert t[..i][0] == t[0];
      assert t[1..][..i - 1] == t[..i][1..];
      AddOrUpdateAt(t[1..], i - 1, key, name, allowedIP, created);
    }
  }

  lemma {:induction false} AddOrUpdateAbsent(t: Table, key: string, name: string, allowedIP: string, created: string)
    requires !HasClient(t, key)
    ensures AddOrUpdate(t, key, name, allowedIP, created) == t + [Refreshed(Record(key, map[]), name, allowedIP, created)]
  {
    hide Refreshed;
    if t != [] {
      assert forall k :: 0 <= k < |t[1..]| ==> t[1..][k] == t[k + 1];
      AddOrUpdateAbsent(t[1..], key, name, allowedIP, created);
    }
  }

  lemma RemoveStart(key: string)
    ensures Without([], key) == [] && !HasClient([], key)
  {}

  lemma RemoveStep(t: Table, r: Record, key: string)
    ensures Without(t + [r], key) == if r.clientId == key then Without(t, key) else Without(t, key) + [r]
    ensures HasClient(t + [r], key) <==> HasClient(t, key) || r.clientId == key
  {
    WithoutAppend(t, [r], key);
    assert [r][1..] == [];
    var all := t + [r];
    assert all[|t|] == r && forall i :: 0 <= i < |t| ==> all[i] == t[i];
  }

  // ----- Operations -----

  /** The table as a slice over a backing array. */
  class Records {
    var rows: array<Record>
    var count: nat

    ghost predicate Valid()
      reads this
    {
      count <= rows.Length
    }

    ghost function View(): Table
      reads this, rows
      requires Valid()
    {
      rows[..count]
    }

    constructor (t: Table)
      ensures Valid() && fresh(rows) && View() == t
    {
      count := |t|;
      rows := new Record[|t|](i requires 0 <= i < |t| => t[i]);
    }

    method AddOrUpdateRecord(publicKey: string, name: string, allowedIP: string, created: string)
      requires Valid()
      modifies this, rows
      ensures Valid() && (rows == old(rows) || fresh(rows))
      ensures View() == AddOrUpdate(old(View()), publicKey, name, allowedIP, created)
    {
      ghost var was := rows[..count];
      hide AddOrUpdate, Refreshed;
      for i := 0 to count
        invariant rows == old(rows) && count == old(count) && rows[..count] == was
        invariant !HasClient(was[..i], publicKey)
      {
        if rows[i].clientId == publicKey {
          AddOrUpdateAt(was, i, publicKey, name, allowedIP, created);
          rows[i] := Refreshed(rows[i], name, allowedIP, created);
          return;
        }
      }
      assert was[..count] == was;
      AddOrUpdateAbsent(was, publicKey, name, allowedIP, created);
      if count == rows.Length {
        var held := rows[..count];
        rows := new Record[2 * count + 1](i => if 0 <= i < |held| then held[i] else Record("", map[]));
      }
      rows[count] := Refreshed(Record(publicKey, map[]), name, allowedIP, created);
      count := count + 1;
    }

    /** Compacts the slice in place over the records that stay. */
    method Remove(publicKey: string) returns (removed: bool)
      requires Valid()
      modifies this, rows
      ensures Valid() && rows == old(rows)
      ensures View() == Without(old(View()), publicKey)
      ensures removed <==> HasClient(old(View()), publicKey)
    {
      ghost var was := rows[..count];
      var next := 0;
      RemoveStart(publicKey);
      hide Without, HasClient;
      assert was[..0] == [];
      removed := false;
      for i := 0 to count
        invariant next <= i && rows == old(rows) && count == old(count)
        invariant rows[..next] == Without(was[..i], publicKey)
        invariant forall k :: i <= k < count ==> rows[k] == was[k]
        invariant removed <==> HasClient(was[..i], publicKey)
      {
        assert was[..i + 1] == was[..i] + [was[i]];
        RemoveStep(was[..i], was[i], publicKey);
        if rows[i].clientId == publicKey {
          removed := true;
        } else {
          Keep(next, i);
          next := next + 1;
        }
      }
      assert was[..count] == was;
      count := next;
    }

    /** Moves a record down, next to those kept so far. */
    method Keep(next: nat, i: nat)
      requires next <= i < rows.Length
      modifies rows
      ensures rows[..next + 1] == old(rows[..next]) + [old(rows[i])]
      ensures forall k :: i < k < rows.Length ==> rows[k] == old(rows[k])
    {
      rows[next] := rows[i];
    }

    method ByPublicKey(publicKey: string) returns (r: Option<Record>)
      requires Valid()
      ensures r == First(View(), publicKey)
    {
      ghost var was := rows[..count];
      assert was[0..] == was;
      for i := 0 to count
        invariant First(was, publicKey) == First(was[i..], publicKey)
      {
        assert was[i..][1..] == was[i + 1..];
        if rows[i].clientId == publicKey { return Some(rows[i]); }
      }
      return None;
    }
  }
}
