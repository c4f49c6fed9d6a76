/** The headers copied from the inbound request onto the page's navigation. */
module Headers {

  /** A header name and value, as the request's header list yields them
      (names already lower-cased by the HTTP layer). */
  type Entry = (string, string)

  /** `Object.fromEntries(entries)`: each entry in turn becomes a property,
      so a later entry with the same name overwrites an earlier one. */
  function FromEntries(entries: seq<Entry>): (m: map<string, string>)
    ensures m.Keys == set i | 0 <= i < |entries| :: entries[i].0
  {
    if entries == [] then map[]
    else
      var last := entries[|entries| - 1];
      var m := FromEntries(entries[..|entries| - 1]);
      assert forall i | 0 <= i < |entries| - 1 :: entries[..|entries| - 1][i] == entries[i];
      m[last.0 := last.1]
  }

  /** The property for a name holds the value of the last entry with that name. */
  lemma {:induction false} LastEntryWins(entries: seq<Entry>, i: nat)
    requires i < |entries|
    requires forall j | i < j < |entries| :: entries[j].0 != entries[i].0
    ensures entries[i].0 in FromEntries(entries)
    ensures FromEntries(entries)[entries[i].0] == entries[i].1
  {
    if i < |entries| - 1 {
      var init := entries[..|entries| - 1];
      assert init[i] == entries[i];
      LastEntryWins(init, i);
    }
  }

  const HostHeader: string := "host"

  /** The object handed to `setExtraHTTPHeaders`: the inbound headers after `delete headers.host`. */
  function Forwarded(entries: seq<Entry>): (m: map<string, string>)
    ensures HostHeader !in m
    ensures m.Keys == FromEntries(entries).Keys - {HostHeader}
    ensures forall k | k in m :: m[k] == FromEntries(entries)[k]
  {
    FromEntries(entries) - {HostHeader}
  }

  /** Every inbound header other than `host` reaches the origin, with the value of its last entry. */
  lemma ForwardedHeader(entries: seq<Entry>, i: nat)
    requires i < |entries| && entries[i].0 != HostHeader
    requires forall j | i < j < |entries| :: entries[j].0 != entries[i].0
    ensures entries[i].0 in Forwarded(entries) && Forwarded(entries)[entries[i].0] == entries[i].1
  {
    LastEntryWins(entries, i);
  }

  /** Forwarding leaves the headers as they are exactly when none of them is `host`. */
  lemma ForwardedIsAllWithoutHost(entries: seq<Entry>)
    ensures Forwarded(entries) == FromEntries(entries) <==>
      forall i | 0 <= i < |entries| :: entries[i].0 != HostHeader
  {
    if exists i | 0 <= i < |entries| :: entries[i].0 == HostHeader {
      var i :| 0 <= i < |entries| && entries[i].0 == HostHeader;
      assert HostHeader in FromEntries(entries);
    }
  }
}
