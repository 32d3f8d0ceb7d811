/** The source configuration widget: the connection string it builds from the
    host text and its three check boxes, the parse that turns such a string
    back into settings, and the creation of a source from it. Host-name
    resolution is a parameter. */
module ConfigWidget {
  import opened Text
  import opened LiveLinkTypes
  import L = Lifecycle
  import SourceDirectory
  import LiveLinkSource

  // ---------------------------------------------------------------------------
  // The connection string

  /** `%d` of a bool. */
  function BoolDigit(b: bool): string
  {
    if b then "1" else "0"
  }

  /** "host;tcp;artags;compressed" with each flag as 0 or 1. */
  function ConnectionString(host: string, useTCP: bool, streamARTags: bool, streamCompressed: bool): (r: string)
    ensures Split(r) == Split(host) + [BoolDigit(useTCP), BoolDigit(streamARTags), BoolDigit(streamCompressed)]
  {
    var d1, d2, d3 := BoolDigit(useTCP), BoolDigit(streamARTags), BoolDigit(streamCompressed);
    HostAndFlagFields(host, d1, d2, d3);
    host + ";" + d1 + ";" + d2 + ";" + d3
  }

  /** The fields of `s` between `;` separators, empty ones included. */
  function Split(s: string): (fields: seq<string>)
    ensures |fields| >= 1
    decreases |s|
  {
    if s == [] then [""]
    else if s[0] == ';' then [""] + Split(s[1..])
    else
      var rest := Split(s[1..]);
      [[s[0]] + rest[0]] + rest[1..]
  }

  /** The fields joined with `;`: the inverse of Split. */
  function Join(fields: seq<string>): string
    requires |fields| >= 1
    decreases |fields|
  {
    if |fields| == 1 then fields[0] else fields[0] + ";" + Join(fields[1..])
  }

  /** Joining a field in front of others puts a separator between them. */
  lemma JoinCons(head: string, tail: seq<string>)
    requires |tail| >= 1
    ensures Join([head] + tail) == head + ";" + Join(tail)
  {
    assert ([head] + tail)[1..] == tail;
  }

  /** Splitting loses nothing: joining the fields gives the string back. */
  lemma {:induction false} SplitJoin(s: string)
    ensures Join(Split(s)) == s
    decreases |s|
  {
    if s != [] {
      SplitJoin(s[1..]);
      var rest := Split(s[1..]);
      if s[0] == ';' {
        JoinCons("", rest);
        assert s == [';'] + s[1..];
      } else {
        var head := [s[0]] + rest[0];
        if |rest| == 1 {
          assert Split(s) == [head];
        } else {
          assert rest == [rest[0]] + rest[1..];
          JoinCons(rest[0], rest[1..]);
          JoinCons(head, rest[1..]);
        }
        assert s == [s[0]] + s[1..];
      }
    }
  }

  /** No field of a split holds a separator. */
  lemma {:induction false} SplitFieldsHaveNoSeparator(s: string)
    ensures forall k :: 0 <= k < |Split(s)| ==> ';' !in Split(s)[k]
    decreases |s|
  {
    if s != [] {
      SplitFieldsHaveNoSeparator(s[1..]);
      var rest := Split(s[1..]);
      if s[0] == ';' {
        assert Split(s) == [""] + rest;
      } else {
        var fs := Split(s);
        assert fs == [[s[0]] + rest[0]] + rest[1..];
        forall k | 0 <= k < |fs| ensures ';' !in fs[k] {
          if k == 0 {
            assert ';' !in rest[0];
          } else {
            assert fs[k] == rest[k];
          }
        }
      }
    }
  }

  /** A string without separators is one field. */
  lemma {:induction false} SplitNoSeparator(s: string)
    requires ';' !in s
    ensures Split(s) == [s]
    decreases |s|
  {
    if s != [] {
      SplitNoSeparator(s[1..]);
      assert [s[0]] + s[1..] == s;
    }
  }

  /** A separator splits the fields of what precedes it from those of what
      follows it. */
  lemma {:induction false} SplitAtSeparator(x: string, y: string)
    ensures Split(x + ";" + y) == Split(x) + Split(y)
    decreases |x|
  {
    if x == [] {
      assert x + ";" + y == [';'] + y;
      SplitCons(';', y);
    } else {
      var c, t := x[0], x[1..];
      SplitAtSeparator(t, y);
      ConsBeforeSeparator(x, y);
      SplitCons(c, t + ";" + y);
      assert x == [c] + t;
      SplitCons(c, t);
      FieldsAppend(c, Split(t), Split(y));
    }
  }

  /** Split with its first character taken off. */
  lemma SplitCons(c: char, t: string)
    ensures Split([c] + t)
         == if c == ';' then [""] + Split(t) else [[c] + Split(t)[0]] + Split(t)[1..]
  {
    assert ([c] + t)[1..] == t;
  }

  /** The first character of x stays in front when a separated string is
      appended. */
  lemma ConsBeforeSeparator(x: string, y: string)
    requires x != []
    ensures x + ";" + y == [x[0]] + (x[1..] + ";" + y)
  {
  }

  /** Adding a character in front of the fields commutes with appending
      further fields. */
  lemma FieldsAppend(c: char, a: seq<string>, b: seq<string>)
    requires |a| >= 1
    ensures (if c == ';' then [""] + (a + b) else [[c] + (a + b)[0]] + (a + b)[1..])
         == (if c == ';' then [""] + a else [[c] + a[0]] + a[1..]) + b
  {
    if c != ';' {
      assert (a + b)[1..] == a[1..] + b;
    }
  }

  /** The fields with the empty ones dropped. */
  function CullEmpty(fields: seq<string>): (r: seq<string>)
    ensures |r| <= |fields|
    decreases |fields|
  {
    if fields == [] then []
    else (if fields[0] == "" then [] else [fields[0]]) + CullEmpty(fields[1..])
  }

  /** No empty field survives, and every other field does. */
  lemma {:induction false} CullEmptyMeaning(fields: seq<string>)
    ensures forall f :: f in CullEmpty(fields) <==> f in fields && f != ""
    decreases |fields|
  {
    if fields != [] {
      CullEmptyMeaning(fields[1..]);
      assert forall f :: f in fields <==> f == fields[0] || f in fields[1..];
    }
  }

  lemma {:induction false} CullEmptyConcat(a: seq<string>, b: seq<string>)
    ensures CullEmpty(a + b) == CullEmpty(a) + CullEmpty(b)
    decreases |a|
  {
    if a != [] {
      assert (a + b)[0] == a[0];
      assert (a + b)[1..] == a[1..] + b;
      CullEmptyConcat(a[1..], b);
      var head := if a[0] == "" then [] else [a[0]];
      assert CullEmpty(a) == head + CullEmpty(a[1..]);
      assert CullEmpty(a + b) == head + CullEmpty(a[1..] + b);
      assert head + (CullEmpty(a[1..]) + CullEmpty(b)) == (head + CullEmpty(a[1..])) + CullEmpty(b);
    } else {
      assert a + b == b;
    }
  }

  /** Culling keeps a sequence without empty fields as it is. */
  lemma {:induction false} CullEmptyKeeps(fields: seq<string>)
    requires forall k :: 0 <= k < |fields| ==> fields[k] != ""
    ensures CullEmpty(fields) == fields
    decreases |fields|
  {
    if fields != [] {
      CullEmptyKeeps(fields[1..]);
    }
  }

  /** The culled fields of a string are non-empty and hold no separator. */
  lemma CullEmptyClean(s: string)
    ensures forall f :: f in CullEmpty(Split(s)) <==> f in Split(s) && f != ""
    ensures forall k :: 0 <= k < |CullEmpty(Split(s))| ==> CullEmpty(Split(s))[k] != "" && ';' !in CullEmpty(Split(s))[k]
  {
    SplitFieldsHaveNoSeparator(s);
    var fs := Split(s);
    CullEmptyMeaning(fs);
    var r := CullEmpty(fs);
    forall k | 0 <= k < |r| ensures r[k] != "" && ';' !in r[k] {
      assert r[k] in r;
      var j :| 0 <= j < |fs| && fs[j] == r[k];
    }
  }

  /** The split the widget parses with: `;` separators, empty fields culled. */
  function ParseIntoArray(s: string): (r: seq<string>)
    ensures forall f :: f in r <==> f in Split(s) && f != ""
    ensures forall k :: 0 <= k < |r| ==> r[k] != "" && ';' !in r[k]
  {
    CullEmptyClean(s);
    CullEmpty(Split(s))
  }

  datatype Settings = Settings(host: string, useTCP: bool, streamARTags: bool, streamCompressed: bool)

  /** Flag k is set exactly when field k is "1"; a missing field falls back. */
  function FlagField(configs: seq<string>, k: nat, fallback: bool): bool
  {
    if |configs| >= k + 1 then configs[k] == "1" else fallback
  }

  /** The settings a connection string names: the host is field 0, the flags
      fields 1 to 3, each falling back to the current setting. The first field
      is read unconditionally, so the string must yield one. */
  function ParseConnectionString(input: string, useTCP: bool, streamARTags: bool, streamCompressed: bool): (r: Settings)
    requires |ParseIntoArray(input)| >= 1
    ensures r.host != "" && ';' !in r.host && r.host in Split(input)
    ensures |ParseIntoArray(input)| == 1 ==>
      r.useTCP == useTCP && r.streamARTags == streamARTags && r.streamCompressed == streamCompressed
  {
    var configs := ParseIntoArray(input);
    Settings(configs[0],
             FlagField(configs, 1, useTCP),
             FlagField(configs, 2, streamARTags),
             FlagField(configs, 3, streamCompressed))
  }

  /** The three flag digits, separated, are three fields. */
  lemma FlagFields(d1: string, d2: string, d3: string)
    requires ';' !in d1 && ';' !in d2 && ';' !in d3
    ensures Split(d1 + ";" + d2 + ";" + d3) == [d1, d2, d3]
  {
    SplitNoSeparator(d1);
    SplitNoSeparator(d2);
    SplitNoSeparator(d3);
    SplitAtSeparator(d2, d3);
    SplitAtSeparator(d1, d2 + ";" + d3);
    assert d1 + ";" + d2 + ";" + d3 == d1 + ";" + (d2 + ";" + d3);
  }

  /** A host followed by three separated flag digits splits into the host's
      fields and the three digits. */
  lemma HostAndFlagFields(host: string, d1: string, d2: string, d3: string)
    requires ';' !in d1 && ';' !in d2 && ';' !in d3
    ensures Split(host + ";" + d1 + ";" + d2 + ";" + d3) == Split(host) + [d1, d2, d3]
  {
    FlagFields(d1, d2, d3);
    SplitAtSeparator(host, d1 + ";" + d2 + ";" + d3);
    assert host + ";" + d1 + ";" + d2 + ";" + d3 == host + ";" + (d1 + ";" + d2 + ";" + d3);
  }

  /** The fields of a connection string: those of the host, then the three
      flag digits, which always survive the culling. */
  lemma ConnectionStringFields(host: string, useTCP: bool, streamARTags: bool, streamCompressed: bool)
    ensures ParseIntoArray(ConnectionString(host, useTCP, streamARTags, streamCompressed))
         == ParseIntoArray(host) + [BoolDigit(useTCP), BoolDigit(streamARTags), BoolDigit(streamCompressed)]
    ensures |ParseIntoArray(ConnectionString(host, useTCP, streamARTags, streamCompressed))| >= 3
  {
    var digits := [BoolDigit(useTCP), BoolDigit(streamARTags), BoolDigit(streamCompressed)];
    CullEmptyConcat(Split(host), digits);
    CullEmptyKeeps(digits);
  }

  /** Round trip: for a non-empty host without `;`, parsing the connection
      string gives back the host and the three flags, whatever the fallbacks. */
  lemma ConnectionStringRoundTrip(host: string, useTCP: bool, streamARTags: bool, streamCompressed: bool,
                                  tcpFallback: bool, arTagsFallback: bool, compressedFallback: bool)
    requires host != "" && ';' !in host
    ensures |ParseIntoArray(ConnectionString(host, useTCP, streamARTags, streamCompressed))| >= 1
    ensures ParseConnectionString(ConnectionString(host, useTCP, streamARTags, streamCompressed),
                                  tcpFallback, arTagsFallback, compressedFallback)
         == Settings(host, useTCP, streamARTags, streamCompressed)
  {
    ConnectionStringFields(host, useTCP, streamARTags, streamCompressed);
    SplitNoSeparator(host);
    CullEmptyKeeps([host]);
  }

  /** With an empty host the culled fields shift left: the TCP digit is taken
      for the host, each flag is read from the next flag's digit, and the
      compression flag falls back to the current setting. */
  lemma EmptyHostShiftsFields(useTCP: bool, streamARTags: bool, streamCompressed: bool,
                              tcpFallback: bool, arTagsFallback: bool, compressedFallback: bool)
    ensures |ParseIntoArray(ConnectionString("", useTCP, streamARTags, streamCompressed))| >= 1
    ensures ParseConnectionString(ConnectionString("", useTCP, streamARTags, streamCompressed),
                                  tcpFallback, arTagsFallback, compressedFallback)
         == Settings(BoolDigit(useTCP), streamARTags, streamCompressed, compressedFallback)
  {
    ConnectionStringFields("", useTCP, streamARTags, streamCompressed);
    assert Split("") == [""];
    assert ParseIntoArray("") == [];
  }

  // ---------------------------------------------------------------------------
  // The widget

  datatype CheckBoxState = Unchecked | Checked | Undetermined
  datatype TextCommit = Default | OnEnter | OnUserMovedFocus | OnCleared

  /** The persisted configuration section. */
  datatype SavedConfig = SavedConfig(ip: string, useTCP: bool, streamARTags: bool, streamCompressed: bool)

  /** What the widget hands to the factory's creation callback. */
  datatype Handover = Handover(src: LiveLinkSource.Source?, connectionString: string)

  class Widget {
    var initialIP: string
    var useTCP: bool
    var streamARTags: bool
    var streamCompressed: bool
    var source: LiveLinkSource.Source?
    var saved: Option<SavedConfig>

    /** Loads the persisted settings, or the defaults 127.0.0.1, no TCP, AR
        tags on, no compression. */
    constructor(stored: Option<SavedConfig>)
      ensures saved == stored && source == null
      ensures stored.None? ==> initialIP == "127.0.0.1" && !useTCP && streamARTags && !streamCompressed
      ensures stored.Some? ==>
        && initialIP == stored.value.ip && useTCP == stored.value.useTCP
        && streamARTags == stored.value.streamARTags && streamCompressed == stored.value.streamCompressed
    {
      saved := stored;
      source := null;
      if stored.Some? {
        initialIP := stored.value.ip;
        useTCP := stored.value.useTCP;
        streamARTags := stored.value.streamARTags;
        streamCompressed := stored.value.streamCompressed;
      } else {
        initialIP := "127.0.0.1";
        useTCP := false;
        streamARTags := true;
        streamCompressed := false;
      }
    }

    method UseTCPChanged(state: CheckBoxState)
      modifies this`useTCP
      ensures useTCP == (state == Checked)
    {
      useTCP := state == Checked;
    }

    method StreamARTagsChanged(state: CheckBoxState)
      modifies this`streamARTags
      ensures streamARTags == (state == Checked)
    {
      streamARTags := state == Checked;
    }

    method StreamCompressedChanged(state: CheckBoxState)
      modifies this`streamCompressed
      ensures streamCompressed == (state == Checked)
    {
      streamCompressed := state == Checked;
    }

    /** Creates a source from a connection string: nothing when the host does
        not resolve; otherwise a source on the resolved address with the
        parsed flags, remembered as the widget's source, and the resolved
        address saved with the widget's own (not the parsed) flags. */
    method CreateSource(dir: SourceDirectory.Directory, input: string, resolve: string -> Option<string>)
      returns (src: LiveLinkSource.Source?)
      requires |ParseIntoArray(input)| >= 1
      modifies this`source, this`saved, dir
      ensures var cfg := ParseConnectionString(input, useTCP, streamARTags, streamCompressed);
        && (resolve(cfg.host).None? ==>
              src == null && source == old(source) && saved == old(saved) && unchanged(dir))
        && (resolve(cfg.host).Some? ==>
              && src != null && fresh(src) && source == src
              && src.ipAddress == resolve(cfg.host).value
              && src.State() == L.Initial(src.prefix, cfg.useTCP, cfg.streamARTags, cfg.streamCompressed)
              && dir.sourceCount == old(dir.sourceCount) + 1
              && SourceDirectory.IsLeastFree(old(dir.Used(resolve(cfg.host).value)), src.sourceIndex)
              && dir.ipAddressCounts == old(dir.ipAddressCounts)[src.ipAddress := old(dir.Used(resolve(cfg.host).value)) + {src.sourceIndex}]
              && src.prefix == SourceDirectory.SubjectPrefix(src.ipAddress, dir.sourceCount, src.sourceIndex)
              && saved == Some(SavedConfig(src.ipAddress, useTCP, streamARTags, streamCompressed)))
    {
      var configs := ParseIntoArray(input);
      var host := configs[0];
      var tcp := if |configs| >= 2 then configs[1] == "1" else useTCP;
      var artags := if |configs| >= 3 then configs[2] == "1" else streamARTags;
      var compressed := if |configs| >= 4 then configs[3] == "1" else streamCompressed;
      var resolved := resolve(host);
      if resolved.None? {
        return null;
      }
      var ip := resolved.value;
      src := new LiveLinkSource.Source(dir, ip, tcp, artags, compressed);
      source := src;
      saved := Some(SavedConfig(ip, useTCP, streamARTags, streamCompressed));
    }

    /** Enter on the host text: builds the connection string, creates a source
        from it, hands both over and remembers the text. */
    method CommitEnter(text: string, dir: SourceDirectory.Directory, resolve: string -> Option<string>)
      returns (handover: Handover)
      modifies this`initialIP, this`source, this`saved, dir
      ensures initialIP == text
      ensures
        && handover.connectionString == ConnectionString(text, useTCP, streamARTags, streamCompressed)
        && |ParseIntoArray(handover.connectionString)| >= 3
        && var cfg := ParseConnectionString(handover.connectionString, useTCP, streamARTags, streamCompressed);
           && (resolve(cfg.host).None? ==>
                 handover.src == null && source == old(source) && saved == old(saved) && unchanged(dir))
           && (resolve(cfg.host).Some? ==>
                 && handover.src != null && fresh(handover.src) && source == handover.src
                 && source.ipAddress == resolve(cfg.host).value
                 && source.State() == L.Initial(source.prefix, cfg.useTCP, cfg.streamARTags, cfg.streamCompressed)
                 && dir.sourceCount == old(dir.sourceCount) + 1
                 && SourceDirectory.IsLeastFree(old(dir.Used(resolve(cfg.host).value)), source.sourceIndex)
                 && dir.ipAddressCounts == old(dir.ipAddressCounts)[source.ipAddress := old(dir.Used(resolve(cfg.host).value)) + {source.sourceIndex}]
                 && source.prefix == SourceDirectory.SubjectPrefix(source.ipAddress, dir.sourceCount, source.sourceIndex)
                 && saved == Some(SavedConfig(source.ipAddress, useTCP, streamARTags, streamCompressed)))
    {
      var connectionString := ConnectionString(text, useTCP, streamARTags, streamCompressed);
      ConnectionStringFields(text, useTCP, streamARTags, streamCompressed);
      var src := CreateSource(dir, connectionString, resolve);
      handover := Handover(src, connectionString);
      initialIP := text;
    }

    /** A committed host text: Enter as `CommitEnter` states; Default and a
        focus change remember the text; any other commit does nothing. */
    method OpenSource(text: string, commit: TextCommit, dir: SourceDirectory.Directory,
                      resolve: string -> Option<string>) returns (handover: Option<Handover>)
      modifies this`initialIP, this`source, this`saved, dir
      ensures commit == OnEnter || commit == Default || commit == OnUserMovedFocus ==> initialIP == text
      ensures commit == OnCleared ==> initialIP == old(initialIP) && unchanged(dir) && unchanged(this)
      ensures commit != OnEnter ==> handover.None? && source == old(source) && saved == old(saved) && unchanged(dir)
      ensures commit == OnEnter ==> handover.Some?
      ensures commit == OnEnter ==>
        && handover.value.connectionString == ConnectionString(text, useTCP, streamARTags, streamCompressed)
        && |ParseIntoArray(handover.value.connectionString)| >= 3
        && var cfg := ParseConnectionString(handover.value.connectionString, useTCP, streamARTags, streamCompressed);
           && (resolve(cfg.host).None? ==>
                 handover.value.src == null && source == old(source) && saved == old(saved) && unchanged(dir))
           && (resolve(cfg.host).Some? ==>
                 && handover.value.src != null && fresh(handover.value.src) && source == handover.value.src
                 && source.ipAddress == resolve(cfg.host).value
                 && source.State() == L.Initial(source.prefix, cfg.useTCP, cfg.streamARTags, cfg.streamCompressed)
                 && dir.sourceCount == old(dir.sourceCount) + 1
                 && SourceDirectory.IsLeastFree(old(dir.Used(resolve(cfg.host).value)), source.sourceIndex)
                 && dir.ipAddressCounts == old(dir.ipAddressCounts)[source.ipAddress := old(dir.Used(resolve(cfg.host).value)) + {source.sourceIndex}]
                 && source.prefix == SourceDirectory.SubjectPrefix(source.ipAddress, dir.sourceCount, source.sourceIndex)
                 && saved == Some(SavedConfig(source.ipAddress, useTCP, streamARTags, streamCompressed)))
    {
      match commit
      case OnEnter =>
        var h := CommitEnter(text, dir, resolve);
        handover := Some(h);
      case Default =>
        initialIP := text;
        handover := None;
      case OnUserMovedFocus =>
        initialIP := text;
        handover := None;
      case OnCleared =>
        handover := None;
    }

    /** The Connect button commits the remembered host text with Enter. */
    method OkClicked(dir: SourceDirectory.Directory, resolve: string -> Option<string>)
      returns (handover: Option<Handover>)
      modifies this`initialIP, this`source, this`saved, dir
      ensures initialIP == old(initialIP)
      ensures && handover.Some?
              && handover.value.connectionString == ConnectionString(initialIP, useTCP, streamARTags, streamCompressed)
              && |ParseIntoArray(handover.value.connectionString)| >= 3
      ensures var cfg := ParseConnectionString(handover.value.connectionString, useTCP, streamARTags, streamCompressed);
        && (resolve(cfg.host).None? ==>
              handover.value.src == null && source == old(source) && saved == old(saved) && unchanged(dir))
        && (resolve(cfg.host).Some? ==>
              && handover.value.src != null && fresh(handover.value.src) && source == handover.value.src
              && source.ipAddress == resolve(cfg.host).value
              && source.State() == L.Initial(source.prefix, cfg.useTCP, cfg.streamARTags, cfg.streamCompressed)
              && dir.sourceCount == old(dir.sourceCount) + 1
              && SourceDirectory.IsLeastFree(old(dir.Used(resolve(cfg.host).value)), source.sourceIndex)
              && dir.ipAddressCounts == old(dir.ipAddressCounts)[source.ipAddress := old(dir.Used(resolve(cfg.host).value)) + {source.sourceIndex}]
              && source.prefix == SourceDirectory.SubjectPrefix(source.ipAddress, dir.sourceCount, source.sourceIndex)
              && saved == Some(SavedConfig(source.ipAddress, useTCP, streamARTags, streamCompressed)))
    {
      handover := OpenSource(initialIP, OnEnter, dir, resolve);
    }
  }
}
