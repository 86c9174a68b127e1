/** What a file-system state means to the Windows credential store: the key a reader would get. */
module CredentialDisk {
  import opened Wrappers
  import Text

  /** `guarded`: the file's access list has been replaced and read back. */
  datatype File = File(content: string, mtime: int, guarded: bool)

  /** The canonical file, the legacy file and the temporary files beside the canonical one. */
  datatype Disk = Disk(canonical: Option<File>, legacy: Option<File>, temps: map<nat, File>)

  /** Universal newlines, as text reads translate them. */
  function Newlines(s: string): string {
    if s == "" then ""
    else if s[0] == '\r' then "\n" + Newlines(if |s| > 1 && s[1] == '\n' then s[2..] else s[1..])
    else [s[0]] + Newlines(s[1..])
  }

  /** The translation leaves no carriage return, and changes nothing where there is none. */
  lemma {:induction false} NewlinesAreClean(s: string)
    ensures '\r' !in Newlines(s)
    ensures '\r' !in s ==> Newlines(s) == s
  {
    if s != "" {
      NewlinesAreClean(if s[0] == '\r' && |s| > 1 && s[1] == '\n' then s[2..] else s[1..]);
      if '\r' !in s { assert s[0] in s && s == [s[0]] + s[1..]; }
    }
  }

  /** `read_text().strip()`. */
  function KeyOf(content: string): string {
    Text.Strip(Newlines(content))
  }

  /** A migration reads the legacy file first: there is no canonical file or it is strictly older. */
  predicate LegacyIsNewer(d: Disk) {
    d.legacy.Some? && (d.canonical.None? || d.legacy.value.mtime > d.canonical.value.mtime)
  }

  /** The key this state stands for. */
  function EffectiveKey(d: Disk): string {
    if LegacyIsNewer(d) && KeyOf(d.legacy.value.content) != "" then KeyOf(d.legacy.value.content)
    else if d.canonical.Some? then KeyOf(d.canonical.value.content)
    else ""
  }

  /** The effective key, said in the modification times and contents of the two files. */
  lemma EffectiveKeyIsTheNewer(d: Disk)
    ensures EffectiveKey(d) == NewerKey(d.canonical, d.legacy)
  {
    hide KeyOf;
  }

  /** A call without a legacy path does not see the legacy file. */
  function Seen(d: Disk, legacyGiven: bool): Disk {
    if legacyGiven then d else d.(legacy := None)
  }

  lemma StripIsPart(s: string)
    ensures forall c :: c in Text.Strip(s) ==> c in s
  {
    hide Text.Strip;
    var left, right := Text.StripSplits(s);
  }

  /** Publishing a key that was read and reading it again gives the same key. */
  lemma KeyOfKey(content: string)
    ensures KeyOf(KeyOf(content)) == KeyOf(content)
    ensures '\r' !in KeyOf(content)
  {
    hide Newlines, Text.StripLeft, Text.StripRight, Text.IsSpace;
    StripIsPart(Newlines(content));
    var k := KeyOf(content);
    NewlinesAreClean(content);
    NewlinesAreClean(k);
    assert Newlines(k) == k;
    if k != "" { assert Text.Strip(k) == k; }
  }

  lemma {:induction false} NewlinesKeepSpace(s: string)
    requires Text.AllSpace(s)
    ensures Text.AllSpace(Newlines(s))
  {
    if s != "" {
      NewlinesKeepSpace(if s[0] == '\r' && |s| > 1 && s[1] == '\n' then s[2..] else s[1..]);
    }
  }

  /** The number of characters the translation reads at the front, and what it writes for them. */
  function Front(s: string): (n: nat)
    requires s != ""
    ensures 1 <= n <= |s| && n <= 2
  {
    if s[0] == '\r' && |s| > 1 && s[1] == '\n' then 2 else 1
  }

  function First(s: string): char
    requires s != ""
  {
    if s[0] == '\r' then '\n' else s[0]
  }

  lemma NewlinesUnfold(s: string)
    requires s != ""
    ensures Newlines(s) == [First(s)] + Newlines(s[Front(s)..])
  {
  }

  lemma Glue(first: string, x: string, y: string, xy: string, whole: string, both: string)
    requires whole == first + x && both == first + xy && xy == x + y
    ensures both == whole + y
  {
  }

  lemma {:induction false} NewlinesOfConcat(a: string, b: string)
    requires a == "" || a[|a| - 1] != '\r' || b == "" || b[0] != '\n'
    ensures Newlines(a + b) == Newlines(a) + Newlines(b)
  {
    hide Newlines, Front;
    NewlinesOfNothing();
    if a == "" {
      assert a + b == b;
      assert Newlines(a) + Newlines(b) == Newlines(b);
    } else {
      var n := Front(a);
      var rest := a[n..];
      assert rest == "" || rest[|rest| - 1] == a[|a| - 1];
      NewlinesOfConcat(rest, b);
      FrontOfConcat(a, b);
      NewlinesUnfold(a);
      NewlinesUnfold(a + b);
      assert (a + b)[n..] == rest + b;
      Glue([First(a)], Newlines(rest), Newlines(b), Newlines(rest + b), Newlines(a), Newlines(a + b));
    }
  }

  lemma NewlinesOfNothing()
    ensures Newlines("") == ""
  {
  }

  lemma NewlineIsSpace()
    ensures Text.IsSpace('\n')
  {
  }

  lemma FrontOfConcat(a: string, b: string)
    requires a != "" && (a[|a| - 1] != '\r' || b == "" || b[0] != '\n')
    ensures Front(a + b) == Front(a) && (a + b)[0] == a[0]
  {
    if |a| > 1 {
      assert (a + b)[1] == a[1];
    } else if b != "" {
      assert (a + b)[1] == b[0];
    }
  }

  /** A stored key reads back as its stripped text exactly when that text has no carriage return;
      otherwise universal newlines change it. */
  lemma StoredKeyReadsBack(key: string)
    ensures KeyOf(key) == Text.Strip(key) <==> '\r' !in Text.Strip(key)
  {
    hide Newlines, Text.Strip;
    KeyOfKey(key);
    if '\r' !in Text.Strip(key) {
      CleanKeyReadsBack(key);
    }
  }

  /** The three line ends: each is one newline when it is read. */
  lemma LineEndsAreNewlines()
    ensures Newlines("\r\n") == "\n" && Newlines("\r") == "\n" && Newlines("\n") == "\n" && Newlines("\r\r\n") == "\n\n"
  {
    NewlinesOfNothing();
    NewlinesUnfold("\r\r\n");
    assert "\r\n"[2..] == "" && "\r"[1..] == "" && "\n"[1..] == "" && "\r\r\n"[1..] == "\r\n";
  }

  /** The failing input: a key with a carriage return inside. */
  lemma CarriageReturnIsLost()
    ensures Text.Strip("a\rb") == "a\rb" && KeyOf("a\rb") == "a\nb"
  {
    assert Newlines("b") == "b" && Newlines("\rb") == "\nb";
    assert "a\rb"[1..] == "\rb" && "\rb"[1..] == "b";
    assert !Text.IsSpace('a') && !Text.IsSpace('b');
  }

  lemma CleanKeyReadsBack(key: string)
    requires '\r' !in Text.Strip(key)
    ensures KeyOf(key) == Text.Strip(key)
  {
    hide Newlines, Text.Strip, Text.IsSpace;
    NewlineIsSpace();
    var core := Text.Strip(key);
    var left, right := Text.StripSplits(key);
    if core == "" {
      BlankReadsBack(key);
    } else {
      NewlinesAround(left, core, right);
      NewlinesKeepSpace(left);
      NewlinesKeepSpace(right);
      Text.StripOfPadded(Newlines(left), core, Newlines(right));
    }
  }

  lemma BlankReadsBack(key: string)
    requires Text.Strip(key) == ""
    ensures KeyOf(key) == ""
  {
    hide Newlines, Text.Strip, Text.IsSpace;
    var left, right := Text.StripSplits(key);
    assert key == left + right;
    NewlinesKeepSpace(key);
    Text.StripOfPadded(Newlines(key), "", "");
    assert Newlines(key) + "" + "" == Newlines(key);
  }

  lemma NewlinesAround(left: string, core: string, right: string)
    requires core != "" && core[0] != '\n' && '\r' !in core
    ensures Newlines(left + core + right) == Newlines(left) + core + Newlines(right)
  {
    var front := left + core;
    assert front[|front| - 1] == core[|core| - 1] && core[|core| - 1] in core;
    NewlinesOfConcat(front, right);
    NewlinesOfConcat(left, core);
    NewlinesAreClean(core);
  }

  // ------------------------------------------------------------------ which file decides

  /** What a migration makes of the two files. A canonical file at least as new as the legacy one stays and the legacy
      file goes; a newer or only legacy key takes its place and its file goes; a blank newer one changes nothing. */
  predicate Reconciled(canonical: Option<File>, legacy: Option<File>, now: Option<File>, nowLegacy: Option<File>) {
    if legacy.None? then now == canonical && nowLegacy.None?
    else if canonical.Some? && legacy.value.mtime <= canonical.value.mtime then now == canonical && nowLegacy.None?
    else if KeyOf(legacy.value.content) == "" then
      now == canonical && nowLegacy.Some? && nowLegacy.value.content == legacy.value.content
    else now.Some? && now.value.content == KeyOf(legacy.value.content) && now.value.guarded && nowLegacy.None?
  }

  /** The key the two files stand for: that of the newer one, the canonical one on a tie or when the legacy is blank. */
  function NewerKey(canonical: Option<File>, legacy: Option<File>): string {
    var own := if canonical.Some? then KeyOf(canonical.value.content) else "";
    if legacy.None? || (canonical.Some? && legacy.value.mtime <= canonical.value.mtime) then own
    else if KeyOf(legacy.value.content) == "" then own
    else KeyOf(legacy.value.content)
  }

  // ------------------------------------------------------------------ what a step may do

  /** Files beside the canonical one: the ones there before are untouched, and a new one is empty until guarded. */
  predicate TempsSafe(before: map<nat, File>, now: map<nat, File>) {
    && (forall t :: t in before ==> t in now && now[t] == before[t])
    && (forall t :: t in now && t !in before ==> now[t].content == "" || now[t].guarded)
  }

  /** A state on the way of publishing `key`: the canonical file is the old one, or whole and guarded. */
  predicate Publishing(before: Disk, d: Disk, key: string, published: bool) {
    && d.legacy == before.legacy
    && TempsSafe(before.temps, d.temps)
    && (if published then d.canonical.Some? && d.canonical.value.content == key && d.canonical.value.guarded
        else d.canonical == before.canonical)
  }

  /** The canonical file holds its old content, or the whole of the legacy key or of the new one, guarded. */
  predicate CanonicalWhole(before: Disk, d: Disk, key: Option<string>) {
    || d.canonical == before.canonical
    || (d.canonical.Some? && d.canonical.value.guarded
        && (|| (before.canonical.Some? && d.canonical.value.content == before.canonical.value.content)
            || (before.legacy.Some? && d.canonical.value.content == KeyOf(before.legacy.value.content))
            || key == Some(d.canonical.value.content)))
  }

  /** The two states stand for the same key. */
  predicate SameKey(a: Disk, b: Disk, legacyGiven: bool) {
    EffectiveKey(Seen(a, legacyGiven)) == EffectiveKey(Seen(b, legacyGiven))
  }

  /** If this step removed the legacy file, the canonical file already gave the same key. */
  predicate RetiresSafely(a: Disk, b: Disk) {
    a.legacy.Some? && b.legacy.None? ==>
      a.canonical.Some? && KeyOf(a.canonical.value.content) == EffectiveKey(a) && b.canonical == a.canonical
  }

  /** On the way of publishing the newer legacy key, before and after the rename, the key stays. */
  lemma MigratingKeepsKey(before: Disk, d: Disk, published: bool)
    requires LegacyIsNewer(before) && KeyOf(before.legacy.value.content) != ""
    requires Publishing(before, d, KeyOf(before.legacy.value.content), published)
    ensures EffectiveKey(d) == EffectiveKey(before)
    ensures published ==> KeyOf(d.canonical.value.content) == EffectiveKey(d)
  {
    hide KeyOf;
    KeyOfKey(before.legacy.value.content);
  }

  /** Once no legacy key is pending, publishing changes the key exactly at the rename. */
  lemma StoringGivesKey(before: Disk, d: Disk, key: string, published: bool, legacyGiven: bool)
    requires legacyGiven && before.legacy.Some? ==> KeyOf(before.legacy.value.content) == ""
    requires Publishing(before, d, key, published)
    ensures EffectiveKey(Seen(d, legacyGiven)) ==
            if published then KeyOf(key) else EffectiveKey(Seen(before, legacyGiven))
  {
    hide KeyOf;
  }
}
