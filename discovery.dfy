/** Finding the serial device file of an attached microcontroller. */
module Discovery {

  /** The directory whose entries are scanned. */
  const DevDir := "/dev/"

  /** Substrings that mark a USB-serial adapter (macOS FTDI naming, Linux
      USB-serial naming, Linux CDC-ACM naming). */
  const UsbSerial := "tty.usbserial"
  const TtyUsb := "ttyUSB"
  const TtyAcm := "ttyACM"

  /** Go's strings.Contains: `sub` occurs somewhere in `s`. */
  predicate Contains(s: string, sub: string)
    decreases |s|
  {
    sub <= s || (s != [] && Contains(s[1..], sub))
  }

  /** Occurrence of `sub` at an explicit position of `s`. */
  ghost predicate OccursAt(s: string, sub: string, i: int) {
    0 <= i <= |s| && sub <= s[i..]
  }

  /** Contains agrees with "there is a position where `sub` occurs". */
  lemma {:induction false} ContainsIffOccurs(s: string, sub: string)
    ensures Contains(s, sub) <==> exists i :: OccursAt(s, sub, i)
    decreases |s|
  {
    if sub <= s {
      assert s[0..] == s;
      assert OccursAt(s, sub, 0);
    } else if s == [] {
      assert s[0..] == s;
    } else {
      ContainsIffOccurs(s[1..], sub);
      if Contains(s[1..], sub) {
        var i :| OccursAt(s[1..], sub, i);
        assert s[1..][i..] == s[i + 1..];
        assert OccursAt(s, sub, i + 1);
      } else {
        forall i | 0 < i <= |s| ensures !OccursAt(s, sub, i) {
          assert s[1..][i - 1..] == s[i..];
          assert !OccursAt(s[1..], sub, i - 1);
        }
        assert s[0..] == s;
      }
    }
  }

  /** A directory entry name that looks like a microcontroller's serial port. */
  predicate LooksLikeMicrocontroller(name: string) {
    Contains(name, UsbSerial) || Contains(name, TtyUsb) || Contains(name, TtyAcm)
  }

  /** Scans the entry names of /dev in listing order and returns the full path
      of the first one that looks like a microcontroller, or "" when none
      does. */
  method FindMicrocontroller(entries: seq<string>) returns (path: string)
    ensures path == "" <==> forall i :: 0 <= i < |entries| ==> !LooksLikeMicrocontroller(entries[i])
    ensures path != "" ==>
      exists i :: 0 <= i < |entries| && path == DevDir + entries[i]
        && LooksLikeMicrocontroller(entries[i])
        && forall j :: 0 <= j < i ==> !LooksLikeMicrocontroller(entries[j])
  {
    var i := 0;
    while i < |entries|
      invariant 0 <= i <= |entries|
      invariant forall j :: 0 <= j < i ==> !LooksLikeMicrocontroller(entries[j])
    {
      var name := entries[i];
      if Contains(name, UsbSerial) || Contains(name, TtyUsb) || Contains(name, TtyAcm) {
        path := DevDir + name;
        assert path[0] == '/';
        return;
      }
      i := i + 1;
    }
    path := "";
  }

  /** A CDC-ACM port name is recognised; an unrelated device name is not. */
  lemma FindsAcmDevice()
    ensures LooksLikeMicrocontroller("ttyACM0")
    ensures !LooksLikeMicrocontroller("null")
  {
    assert TtyAcm <= "ttyACM0";
    assert !Contains("null"[1..][1..][1..], UsbSerial);
  }
}
