/**
 * The firmware version information of adv_ble.c: the compact 32-bit
 * SoftDevice version number, the Bluetooth link-layer version table and the
 * decoding of the version triple the SoftDevice reports.
 */
module BleVersion {
  import opened Types

  const NORDIC_COMPANY_ID := 0x0059
  const NORDIC_SD_OFFSET := 100
  /** Link-layer codes 0..5 are reserved. */
  const BLE_LINK_VERSION_FIRST := 6

  /** NORDIC_SOFTDEVICE_VERSION: one byte each for SoftDevice number - 100, major, minor and patch, most significant first. */
  function SoftDeviceVersion(sd: nat, major: nat, minor: nat, patch: nat): (v: uint32)
    ensures (sd - NORDIC_SD_OFFSET) % 0x100 != 0 ==> v >= 0x100_0000
  {
    ((sd - NORDIC_SD_OFFSET) % 0x100) * 0x100_0000 + (major % 0x100) * 0x1_0000 + (minor % 0x100) * 0x100 + patch % 0x100
  }

  /** (v >> 16) & 0xFF */
  function VersionMajor(v: uint32): uint8 { (v / 0x1_0000) % 0x100 }
  /** (v >> 8) & 0xFF */
  function VersionMinor(v: uint32): uint8 { (v / 0x100) % 0x100 }
  /** (v >> 0) & 0xFF */
  function VersionPatch(v: uint32): uint8 { v % 0x100 }
  /** NORDIC_SD_OFFSET + ((v >> 24) & 0xFF) */
  function VersionSd(v: uint32): nat { NORDIC_SD_OFFSET + (v / 0x100_0000) % 0x100 }

  /** A number below 256 put under a byte-shifted one is split off again by / and % 256. */
  lemma SplitLowByte(hi: nat, lo: nat)
    requires lo < 0x100
    ensures (hi * 0x100 + lo) / 0x100 == hi && (hi * 0x100 + lo) % 0x100 == lo
  {
  }

  /** The same split at 16 bits. */
  lemma SplitLowHalf(hi: nat, lo: nat)
    requires lo < 0x1_0000
    ensures (hi * 0x1_0000 + lo) / 0x1_0000 == hi
  {
  }

  /** The same split at 24 bits. */
  lemma SplitLowThree(hi: nat, lo: nat)
    requires lo < 0x100_0000
    ensures (hi * 0x100_0000 + lo) / 0x100_0000 == hi
  {
  }

  /** For in-range components the packed version is sd - 100, major, minor and patch as base-256 digits. */
  lemma PackedDigits(sd: nat, major: nat, minor: nat, patch: nat)
    requires NORDIC_SD_OFFSET <= sd < NORDIC_SD_OFFSET + 0x100 && major < 0x100 && minor < 0x100 && patch < 0x100
    ensures SoftDeviceVersion(sd, major, minor, patch) ==
      (sd - NORDIC_SD_OFFSET) * 0x100_0000 + major * 0x1_0000 + minor * 0x100 + patch
  {
  }

  /** Unpacking a packed version gives back its four components, for SoftDevice numbers 100..355 and byte-sized components. */
  lemma VersionRoundTrip(sd: nat, major: nat, minor: nat, patch: nat)
    requires NORDIC_SD_OFFSET <= sd < NORDIC_SD_OFFSET + 0x100 && major < 0x100 && minor < 0x100 && patch < 0x100
    ensures var v := SoftDeviceVersion(sd, major, minor, patch);
      VersionSd(v) == sd && VersionMajor(v) == major && VersionMinor(v) == minor && VersionPatch(v) == patch
  {
    var v := SoftDeviceVersion(sd, major, minor, patch);
    var s := sd - NORDIC_SD_OFFSET;
    var a := s * 0x100 + major;
    var b := a * 0x100 + minor;
    PackedDigits(sd, major, minor, patch);
    assert VersionSd(v) == sd by {
      SplitLowThree(s, major * 0x1_0000 + minor * 0x100 + patch);
    }
    assert VersionMajor(v) == major by {
      assert v == a * 0x1_0000 + (minor * 0x100 + patch);
      SplitLowHalf(a, minor * 0x100 + patch);
      SplitLowByte(s, major);
    }
    assert v == b * 0x100 + patch;
    SplitLowByte(b, patch);
    SplitLowByte(a, minor);
  }

  /** A Bluetooth protocol version. */
  datatype LinkVersion = LinkVersion(major: uint8, minor: uint8)

  /** BLE_LL_VERSIONS, indexed by link-layer code - 6: Bluetooth 4.0, 4.1, 4.2 and 5.0. */
  const LinkVersions: seq<LinkVersion> := [LinkVersion(4, 0), LinkVersion(4, 1), LinkVersion(4, 2), LinkVersion(5, 0)]

  /** BLE_LINK_VERSION_IDX computed in unsigned int: codes below 6 wrap to huge indices. */
  function LinkIndex(code: uint8): (ix: uint32)
    ensures code >= BLE_LINK_VERSION_FIRST ==> ix == code - BLE_LINK_VERSION_FIRST
    ensures code < BLE_LINK_VERSION_FIRST ==> ix >= 0x1_0000_0000 - BLE_LINK_VERSION_FIRST
  {
    (code - BLE_LINK_VERSION_FIRST) % 0x1_0000_0000
  }

  /** The link-layer version of a code; an index past the table gives 0.0. */
  function LinkVersionOf(code: uint8): LinkVersion
  {
    var ix := LinkIndex(code);
    if ix < |LinkVersions| then LinkVersions[ix] else LinkVersion(0, 0)
  }

  /** Exactly the codes 6..9 are known; each maps to its table row, every other code to 0.0. */
  lemma LinkVersionTable(code: uint8)
    ensures 6 <= code <= 9 ==> LinkVersionOf(code) == LinkVersions[code - 6]
    ensures !(6 <= code <= 9) ==> LinkVersionOf(code) == LinkVersion(0, 0)
    ensures code == 9 ==> LinkVersionOf(code) == LinkVersion(5, 0)
  {
  }

  /** A row of BLE_SD_VERSIONS: the SoftDevice firmware id and its packed version. */
  datatype SdEntry = SdEntry(code: uint16, version: uint32)

  /** BLE_SD_VERSIONS: the S132 releases the firmware knows. */
  const SdVersions: seq<SdEntry> := [
    SdEntry(0x008C, SoftDeviceVersion(132, 3, 0, 0)),
    SdEntry(0x0098, SoftDeviceVersion(132, 4, 0, 2)),
    SdEntry(0x0099, SoftDeviceVersion(132, 4, 0, 3)),
    SdEntry(0x009D, SoftDeviceVersion(132, 5, 0, 0)),
    SdEntry(0x009E, SoftDeviceVersion(132, 4, 0, 4)),
    SdEntry(0x009F, SoftDeviceVersion(132, 4, 0, 5)),
    SdEntry(0x00A5, SoftDeviceVersion(132, 5, 1, 0)),
    SdEntry(0x00A8, SoftDeviceVersion(132, 6, 0, 0)),
    SdEntry(0x00AF, SoftDeviceVersion(132, 6, 1, 0)),
    SdEntry(0x00B7, SoftDeviceVersion(132, 6, 1, 1))
  ]

  /** The packed version of the first row of table from index from on whose code matches, or 0. */
  function SdVersionFrom(table: seq<SdEntry>, from: nat, code: uint16): uint32
    requires from <= |table|
    decreases |table| - from
  {
    if from == |table| then 0
    else if table[from].code == code then table[from].version
    else SdVersionFrom(table, from + 1, code)
  }

  /** The first row of table from index from on whose code matches. */
  predicate FirstMatch(table: seq<SdEntry>, from: nat, code: uint16, i: nat)
  {
    from <= i < |table| && table[i].code == code && forall k :: from <= k < i ==> table[k].code != code
  }

  /** Which version the search yields: 0 when no row matches, otherwise the version of the first matching row. */
  lemma {:induction false} SdVersionFromFound(table: seq<SdEntry>, from: nat, code: uint16)
    requires from <= |table|
    ensures (forall i :: from <= i < |table| ==> table[i].code != code) ==> SdVersionFrom(table, from, code) == 0
    ensures (exists i :: from <= i < |table| && table[i].code == code) ==>
      exists i: nat :: FirstMatch(table, from, code, i) && SdVersionFrom(table, from, code) == table[i].version
    decreases |table| - from
  {
    if from < |table| {
      SdVersionFromFound(table, from + 1, code);
      if table[from].code == code {
        assert FirstMatch(table, from, code, from);
      } else if exists i :: from <= i < |table| && table[i].code == code {
        var i :| from <= i < |table| && table[i].code == code;
        assert from + 1 <= i;
        var first: nat :| FirstMatch(table, from + 1, code, first) && SdVersionFrom(table, from + 1, code) == table[first].version;
        assert FirstMatch(table, from, code, first);
      }
    }
  }

  /** Every known SoftDevice code yields a non-zero version, every other code 0, which the firmware reports as unsupported. */
  lemma SdVersionKnown(code: uint16)
    ensures SdVersionFrom(SdVersions, 0, code) != 0 <==> exists i :: 0 <= i < |SdVersions| && SdVersions[i].code == code
  {
    SdVersionFromFound(SdVersions, 0, code);
    assert forall i :: 0 <= i < |SdVersions| ==> SdVersions[i].version >= 0x100_0000;
  }

  /** The six numbers printed into the firmware-version string. */
  datatype FwVersion = FwVersion(major: uint8, minor: uint8, patch: uint8, sd: nat, llMajor: uint8, llMinor: uint8)

  /** The linear search over BLE_SD_VERSIONS; 0 when the code is unknown. */
  method FindSdVersion(code: uint16) returns (version: uint32)
    ensures version == SdVersionFrom(SdVersions, 0, code)
  {
    version := 0;
    var sdix := 0;
    while sdix < |SdVersions|
      invariant 0 <= sdix <= |SdVersions|
      invariant SdVersionFrom(SdVersions, 0, code) == SdVersionFrom(SdVersions, sdix, code)
    {
      if SdVersions[sdix].code == code {
        version := SdVersions[sdix].version;
        return;
      }
      sdix := sdix + 1;
    }
  }

  /**
   * The version decoding of _adv_ble_stack_init from what sd_ble_version_get
   * reports. A non-Nordic company id clears the version string (None).
   */
  method DecodeStackVersion(companyId: uint16, versionNumber: uint8, subversion: uint16) returns (fw: Option<FwVersion>)
    ensures fw.None? <==> companyId != NORDIC_COMPANY_ID
    ensures fw.Some? ==> var v := SdVersionFrom(SdVersions, 0, subversion);
      fw.value == FwVersion(VersionMajor(v), VersionMinor(v), VersionPatch(v), VersionSd(v),
                            LinkVersionOf(versionNumber).major, LinkVersionOf(versionNumber).minor)
  {
    if companyId != NORDIC_COMPANY_ID {
      return None;
    }
    var verIx := LinkIndex(versionNumber);
    var ll: LinkVersion;
    if verIx < |LinkVersions| {
      ll := LinkVersions[verIx];
    } else {
      ll := LinkVersion(0, 0);
    }
    var sdVersion := FindSdVersion(subversion);
    fw := Some(FwVersion(VersionMajor(sdVersion), VersionMinor(sdVersion), VersionPatch(sdVersion), VersionSd(sdVersion),
                         ll.major, ll.minor));
  }

  /** A Nordic stack with a known SoftDevice code reports that release's numbers; an unknown code reports 0.0.0 of SoftDevice 100. */
  lemma DecodedRelease(code: uint16)
    ensures code == 0x00B7 ==> var v := SdVersionFrom(SdVersions, 0, code);
      VersionSd(v) == 132 && VersionMajor(v) == 6 && VersionMinor(v) == 1 && VersionPatch(v) == 1
    ensures (forall i :: 0 <= i < |SdVersions| ==> SdVersions[i].code != code) ==> var v := SdVersionFrom(SdVersions, 0, code);
      VersionSd(v) == 100 && VersionMajor(v) == 0 && VersionMinor(v) == 0 && VersionPatch(v) == 0
  {
    SdVersionFromFound(SdVersions, 0, code);
    VersionRoundTrip(132, 6, 1, 1);
  }
}
