/**
  The binary message pane output travels in: the length of the repository id in one
  byte, the id, the pane id in four little-endian bytes, and the bytes themselves.
 */
module TerminalOutput {
  import opened Bytes

  /** A repository id, as the bytes of its text. */
  type Repo = seq<byte>

  const MAX_REPO_BYTES: nat := 255

  datatype Tagged = Tagged(repo: Repo, pane: PaneId, data: seq<byte>)

  function LittleEndian(n: nat, width: nat): (bs: seq<byte>)
    ensures |bs| == width
  {
    if width == 0 then [] else [n % 0x100] + LittleEndian(n / 0x100, width - 1)
  }

  function FromLittleEndian(bs: seq<byte>): nat {
    if bs == [] then 0 else bs[0] as int + 0x100 * FromLittleEndian(bs[1..])
  }

  lemma {:induction false} LittleEndianRoundTrip(n: nat, width: nat)
    requires n < Pow256(width)
    ensures FromLittleEndian(LittleEndian(n, width)) == n
  {
    if width > 0 {
      LittleEndianRoundTrip(n / 0x100, width - 1);
      assert LittleEndian(n, width)[1..] == LittleEndian(n / 0x100, width - 1);
    }
  }

  lemma {:induction false} LittleEndianInjective(bs: seq<byte>)
    ensures FromLittleEndian(bs) < Pow256(|bs|)
    ensures LittleEndian(FromLittleEndian(bs), |bs|) == bs
  {
    if bs != [] {
      LittleEndianInjective(bs[1..]);
      var n := FromLittleEndian(bs);
      assert n % 0x100 == bs[0] && n / 0x100 == FromLittleEndian(bs[1..]);
      assert bs == [bs[0]] + bs[1..];
    }
  }

  /** `None` for a repository id the one length byte cannot describe. */
  function Encode(o: Tagged): Option<seq<byte>> {
    if |o.repo| > MAX_REPO_BYTES then None
    else Some([|o.repo|] + o.repo + LittleEndian(o.pane, 4) + o.data)
  }

  /** `validText` is the test that the id's bytes are text. */
  function Decode(bytes: seq<byte>, validText: seq<byte> -> bool): Option<Tagged> {
    if bytes == [] then None
    else
      var len: int := bytes[0];
      var rest := bytes[1..];
      if |rest| < len + 4 then None
      else
        var repo, pane := rest[..len], FromLittleEndian(rest[len..len + 4]);
        LittleEndianInjective(rest[len..len + 4]);
        Pow256Word();
        if validText(repo) then Some(Tagged(repo, pane, rest[len + 4..])) else None
  }

  /** What is encoded is decoded, exactly when the id fits its length byte and is text. */
  lemma DecodeEncoded(o: Tagged, validText: seq<byte> -> bool)
    ensures Encode(o).Some? <==> |o.repo| <= MAX_REPO_BYTES
    ensures Encode(o).Some? ==>
              Decode(Encode(o).value, validText) == if validText(o.repo) then Some(o) else None
  {
    if |o.repo| <= MAX_REPO_BYTES {
      var bytes := Encode(o).value;
      var rest := bytes[1..];
      var len := |o.repo|;
      assert rest == o.repo + LittleEndian(o.pane, 4) + o.data;
      assert rest[..len] == o.repo;
      assert rest[len..len + 4] == LittleEndian(o.pane, 4);
      assert rest[len + 4..] == o.data;
      Pow256Word();
      LittleEndianRoundTrip(o.pane, 4);
    }
  }

  /** What decodes was encoded: no two byte strings decode to one message. */
  lemma EncodeDecoded(bytes: seq<byte>, validText: seq<byte> -> bool)
    requires Decode(bytes, validText).Some?
    ensures Encode(Decode(bytes, validText).value) == Some(bytes)
    ensures validText(Decode(bytes, validText).value.repo)
  {
    hide LittleEndian, FromLittleEndian;
    var len: int := bytes[0];
    var rest := bytes[1..];
    LittleEndianInjective(rest[len..len + 4]);
    assert bytes == [bytes[0]] + rest;
    assert rest == rest[..len] + rest[len..len + 4] + rest[len + 4..];
    var o := Decode(bytes, validText).value;
    assert [|o.repo|] + o.repo + LittleEndian(o.pane, 4) + o.data == [bytes[0]] + rest;
  }
}
