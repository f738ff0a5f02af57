/**
 * Detection of ICY / Icecast streaming responses before their body is
 * downloaded (the decision part of `handle_pre_response`). Case-insensitive
 * matching is ASCII-only here.
 */
module Icy {
  import opened Wrappers
  import opened Text

  /** A response header: field name and value. */
  type Field = (string, string)

  const IcyVersion: string := "[icy version]"
  const IcyField: string := "[icy field]"
  const IcyServer: string := "[icy server]"

  /** `ICY_FIELD_PATTERN.match(name)`: the name begins with icy-, ice- or x-audiocast-, in any letter case. */
  predicate IsIcyFieldName(name: string) {
    StartsWithIgnoreCase(name, "icy-") || StartsWithIgnoreCase(name, "ice-") || StartsWithIgnoreCase(name, "x-audiocast-")
  }

  /** A field named exactly `Server` whose value begins with icecast, in any letter case. */
  predicate IsIcecastServer(field: Field) {
    field.0 == "Server" && StartsWithIgnoreCase(field.1, "icecast")
  }

  /** What one field decides on its own: the name test is tried before the Server test. */
  function FieldVerdict(field: Field): Option<string> {
    if IsIcyFieldName(field.0) then Some(IcyField)
    else if IsIcecastServer(field) then Some(IcyServer)
    else None
  }

  /** The loop over the fields: the first field with a verdict ends it. */
  function ScanFields(fields: seq<Field>): (r: Option<string>)
    ensures r.Some? ==> r.value == IcyField || r.value == IcyServer
  {
    if fields == [] then None
    else if FieldVerdict(fields[0]).Some? then FieldVerdict(fields[0])
    else ScanFields(fields[1..])
  }

  /**
   * The pattern `handle_pre_response` reports before answering FINISH, or
   * None when it answers NORMAL. An absent version or field list counts as
   * "" or as no fields.
   */
  function IcyPattern(version: Option<string>, fields: seq<Field>): (r: Option<string>)
    ensures r.Some? ==> r.value in {IcyVersion, IcyField, IcyServer}
    ensures version == Some("ICY") ==> r == Some(IcyVersion)
  {
    if version == Some("ICY") then Some(IcyVersion) else ScanFields(fields)
  }

  /**
   * The scan finds nothing exactly when no field has a verdict, and
   * otherwise returns the verdict of the first field that has one.
   */
  lemma {:induction false} ScanFieldsFirstMatch(fields: seq<Field>)
    ensures ScanFields(fields).None? <==> forall i :: 0 <= i < |fields| ==> FieldVerdict(fields[i]).None?
    ensures forall i :: (0 <= i < |fields| && FieldVerdict(fields[i]).Some? &&
      (forall j :: 0 <= j < i ==> FieldVerdict(fields[j]).None?)) ==> ScanFields(fields) == FieldVerdict(fields[i])
  {
    if fields != [] {
      ScanFieldsFirstMatch(fields[1..]);
      if FieldVerdict(fields[0]).None? {
        forall i | 0 < i < |fields| && FieldVerdict(fields[i]).Some? && (forall j :: 0 <= j < i ==> FieldVerdict(fields[j]).None?)
          ensures ScanFields(fields) == FieldVerdict(fields[i])
        {
          assert fields[1..][i - 1] == fields[i];
          forall j | 0 <= j < i - 1 ensures FieldVerdict(fields[1..][j]).None? {
            assert fields[1..][j] == fields[j + 1];
          }
        }
        forall i | 0 < i < |fields| ensures fields[1..][i - 1] == fields[i] { }
      }
    }
  }

  /**
   * A field called `Server` never passes the name test, so which of the two
   * tests runs first for one field does not change its verdict.
   */
  lemma ServerIsNoIcyFieldName()
    ensures !IsIcyFieldName("Server")
  {
    assert Lower("Server"[0]) == 's';
  }

  lemma UpperCaseIcyFieldName()
    ensures IsIcyFieldName("ICY-MetaInt")
  {
    var n := "ICY-MetaInt";
    assert Lower(n[0]) == 'i' && Lower(n[1]) == 'c' && Lower(n[2]) == 'y' && Lower(n[3]) == '-';
  }

  /** An icy- field found after an unrelated one, in upper case. */
  lemma UpperCaseIcyField()
    ensures IcyPattern(None, [("Content-Type", "audio/mpeg"), ("ICY-MetaInt", "16000")]) == Some(IcyField)
  {
    assert !IsIcyFieldName("Content-Type") by {
      assert Lower("Content-Type"[0]) == 'c';
    }
    UpperCaseIcyFieldName();
    var fields := [("Content-Type", "audio/mpeg"), ("ICY-MetaInt", "16000")];
    assert FieldVerdict(fields[0]) == None;
    assert fields[1..] == [("ICY-MetaInt", "16000")];
  }

  /** The first field decides, even when a later one would too. */
  lemma IcecastServerFirst()
    ensures IcyPattern(None, [("Server", "IceCast 2.4"), ("icy-name", "x")]) == Some(IcyServer)
  {
    ServerIsNoIcyFieldName();
    assert IsIcecastServer(("Server", "IceCast 2.4")) by {
      var v := "IceCast 2.4";
      assert Lower(v[0]) == 'i' && Lower(v[1]) == 'c' && Lower(v[2]) == 'e' && Lower(v[3]) == 'c';
      assert Lower(v[4]) == 'a' && Lower(v[5]) == 's' && Lower(v[6]) == 't';
    }
  }

  /** The name `Server` is compared exactly, not case-insensitively. */
  lemma LowerCaseServerIgnored()
    ensures IcyPattern(None, [("server", "Icecast 2.4")]) == None
  {
    assert !IsIcyFieldName("server") by {
      assert Lower("server"[0]) == 's';
    }
  }

  /** The name test is anchored at the start of the name. */
  lemma IcyInsideNameIgnored()
    ensures IcyPattern(None, [("X-Icy-Name", "x")]) == None
  {
    assert !IsIcyFieldName("X-Icy-Name") by {
      assert Lower("X-Icy-Name"[0]) == 'x' && Lower("X-Icy-Name"[2]) == 'i';
    }
  }
}
