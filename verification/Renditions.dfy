/** Names of rendition children: `<version>-<fmt>.<ext>`, written left to right and
    read back right to left. */
module Renditions {
  import opened Text
  import opened Wrappers

  /** The recognised formats, apart from the `extractpdf_` family. */
  const KNOWN_FMTS: set<string> := {
    "thumbnail", "preview", "pdf", "poster", "model", "chatlog", "metamodel",
    "media", "media_sd", "audio", "audio_opus", "emailposter", "extract"
  }

  /** Published media: exempt from pruning by version. */
  const PUBLISHED_FMTS: set<string> := {"media", "media_sd", "audio", "audio_opus", "emailposter"}

  /** The rendition a version must have before links move to it. */
  const PRIMARY_FMTS: set<string> := {"media", "audio"}

  predicate LowerAlnum(c: char) {
    'a' <= c <= 'z' || '0' <= c <= '9'
  }

  /** The small letters and the figures, by their code points. */
  predicate SmallOrFigure(c: char) {
    97 <= c as int <= 122 || 48 <= c as int <= 57
  }

  /** One marked-up PDF per prompt set: `extractpdf_[a-z0-9]{1,32}`. */
  predicate ExtractPdfFmt(fmt: string) {
    && "extractpdf_" <= fmt
    && 1 <= |fmt| - 11 <= 32
    && forall i :: 11 <= i < |fmt| ==> LowerAlnum(fmt[i])
  }

  predicate KnownFmt(fmt: string) {
    fmt in KNOWN_FMTS || ExtractPdfFmt(fmt)
  }

  predicate SafeChar(c: char) {
    'A' <= c <= 'Z' || 'a' <= c <= 'z' || '0' <= c <= '9' || c == '.' || c == '_' || c == '-'
  }

  function Sanitize(s: string): (r: string)
    ensures |r| == |s|
    ensures forall i :: 0 <= i < |s| ==> r[i] == (if SafeChar(s[i]) then s[i] else '_')
  {
    seq(|s|, i requires 0 <= i < |s| => if SafeChar(s[i]) then s[i] else '_')
  }

  function SafeVersion(version: string): (r: string)
    ensures r != "" && AllSafe(r)
  {
    var s := Sanitize(Strip(if version == "" then "0" else version));
    if s == "" then "0" else s
  }

  predicate AllSafe(s: string) {
    forall i :: 0 <= i < |s| ==> SafeChar(s[i])
  }

  function RenditionName(version: string, fmt: string, ext: string): string {
    SafeVersion(version) + "-" + fmt + "." + ext
  }

  datatype Parsed = Parsed(version: string, fmt: string, ext: string)

  /** Cut a name at its last dot, and the stem at its last dash. */
  function CutName(name: string): Option<Parsed> {
    var dot := RFind(name, '.');
    if dot <= 0 then None
    else
      var stem := name[..dot];
      var dash := RFind(stem, '-');
      if dash <= 0 then None else Some(Parsed(stem[..dash], stem[dash + 1..], name[dot + 1..]))
  }

  function ParseRenditionName(name: string): Option<Parsed> {
    var cut := CutName(name);
    if cut.None? || cut.value.ext == "" || !KnownFmt(cut.value.fmt) then None else cut
  }

  /** The fmt of one prompt set's marked-up PDF; `key` is the set's key in lower case. */
  function ExtractPdfName(key: string): string {
    var clean := Keep(key);
    "extractpdf_" + (if clean == "" then "x" else if |clean| > 32 then clean[..32] else clean)
  }

  function Keep(key: string): (r: string)
    ensures forall i :: 0 <= i < |r| ==> LowerAlnum(r[i])
  {
    if key == "" then "" else (if LowerAlnum(key[0]) then [key[0]] else "") + Keep(key[1..])
  }

  /** The formats of marked-up PDFs. */
  ghost predicate OfAPdf(fmt: string, key: string) {
    fmt == "extractpdf_" + key && 1 <= |key| <= 32 && forall i :: 0 <= i < |key| ==> SmallOrFigure(key[i])
  }

  lemma ExtractPdfFmtIff(fmt: string)
    ensures ExtractPdfFmt(fmt) <==> exists key :: OfAPdf(fmt, key)
  {
    if ExtractPdfFmt(fmt) {
      var key := fmt[11..];
      assert fmt == "extractpdf_" + key;
      assert forall i :: 0 <= i < |key| ==> key[i] == fmt[11 + i];
      assert OfAPdf(fmt, key);
    }
    forall key | OfAPdf(fmt, key) ensures ExtractPdfFmt(fmt) {
      assert forall i :: 11 <= i < |fmt| ==> fmt[i] == key[i - 11];
    }
  }

  /** The formats that are recognised: thirteen, and one family. */
  lemma KnownFmtIff(fmt: string)
    ensures KnownFmt(fmt) <==>
              || fmt in ["thumbnail", "preview", "pdf", "poster", "model", "chatlog", "metamodel", "media", "media_sd", "audio",
                         "audio_opus", "emailposter", "extract"]
              || exists key :: OfAPdf(fmt, key)
  {
    hide ExtractPdfFmt, OfAPdf;
    ExtractPdfFmtIff(fmt);
  }

  /** A version in a name: without the blanks around it, "0" if nothing is left, and every character but letters, figures
      and three marks replaced by an underscore. */
  lemma SafeVersionIs(version: string)
    ensures Strip(version) == "" ==> SafeVersion(version) == "0"
    ensures Strip(version) != "" ==>
              var s, r := Strip(version), SafeVersion(version);
              |r| == |s| && forall i :: 0 <= i < |s| ==>
                r[i] == if SmallOrFigure(s[i]) || 65 <= s[i] as int <= 90 || s[i] in {'.', '_', '-'} then s[i] else '_'
  {
    if version == "" {
      StripFixed("0");
      StripFixed("");
    }
  }

  /** The set's key in the name of its PDF: its small letters and figures, in order. */
  lemma {:induction false} KeepIs(a: string, c: char, b: string)
    ensures Keep("") == ""
    ensures Keep(a + [c] + b) == Keep(a) + (if SmallOrFigure(c) then [c] else "") + Keep(b)
  {
    if a == "" {
      assert a + [c] + b == [c] + b;
    } else {
      assert (a + [c] + b)[1..] == a[1..] + [c] + b;
      KeepIs(a[1..], c, b);
    }
  }

  lemma ExtractPdfNameIsKnown(key: string)
    ensures KnownFmt(ExtractPdfName(key)) && ExtractPdfName(key) !in KNOWN_FMTS
  {
    var n := ExtractPdfName(key);
    assert n[..11] == "extractpdf_";
    assert n[7] == 'p' && n[0] == 'e';
  }

  /** No recognised fmt holds a dash, so the last dash of a stem is always the separator;
      and none could be a group of a UUID, since each has a letter past `f`. */
  lemma KnownFmtLetters(fmt: string)
    requires KnownFmt(fmt)
    ensures '-' !in fmt
    ensures exists i :: 0 <= i < |fmt| && 'g' <= fmt[i] <= 'z'
  {
    if ExtractPdfFmt(fmt) {
      assert fmt[..11] == "extractpdf_";
      assert forall i :: 0 <= i < 11 ==> fmt[i] == "extractpdf_"[i];
      assert fmt[1] == 'x';
    } else {
      assert 'm' in fmt || 'p' in fmt || 'h' in fmt || 'o' in fmt || 'x' in fmt by {
        assert "media"[0] == 'm' && "model"[0] == 'm' && "metamodel"[0] == 'm' && "media_sd"[0] == 'm';
        assert "preview"[0] == 'p' && "pdf"[0] == 'p' && "poster"[0] == 'p';
        assert "thumbnail"[1] == 'h' && "chatlog"[1] == 'h' && "audio"[4] == 'o' && "audio_opus"[4] == 'o';
        assert "emailposter"[5] == 'p' && "extract"[1] == 'x';
      }
    }
  }

  lemma CutSound(name: string)
    requires CutName(name).Some?
    ensures var p := CutName(name).value;
            name == p.version + "-" + p.fmt + "." + p.ext && p.version != "" && '-' !in p.fmt && '.' !in p.ext
  {
    hide RFind;
    var dot := RFind(name, '.');
    var stem := name[..dot];
    var dash := RFind(stem, '-');
    SplitAtLast(name, '.', dot);
    SplitAtLast(stem, '-', dash);
  }

  lemma SplitAtLast(s: string, c: char, i: nat)
    requires i < |s| && s[i] == c && forall k :: i < k < |s| ==> s[k] != c
    ensures s == s[..i] + [c] + s[i + 1..] && c !in s[i + 1..]
  {
    var tail := s[i + 1..];
    assert forall k :: 0 <= k < |tail| ==> tail[k] == s[i + 1 + k];
  }

  lemma CutComplete(p: Parsed)
    requires p.version != "" && '-' !in p.fmt && '.' !in p.ext
    ensures CutName(p.version + "-" + p.fmt + "." + p.ext) == Some(p)
  {
    var stem := p.version + "-" + p.fmt;
    var name := stem + "." + p.ext;
    assert name[|stem|] == '.' && name[..|stem|] == stem && name[|stem| + 1..] == p.ext;
    assert forall k :: |stem| < k < |name| ==> name[k] == p.ext[k - |stem| - 1];
    assert RFind(name, '.') == |stem|;
    var dash := |p.version|;
    assert stem[dash] == '-' && stem[..dash] == p.version && stem[dash + 1..] == p.fmt;
    assert forall k :: dash < k < |stem| ==> stem[k] == p.fmt[k - dash - 1];
    assert RFind(stem, '-') == dash;
  }

  /** Reading a name back: a name parses to (v, f, e) exactly when it is `v-f.e` for a
      non-empty version, a recognised fmt and a non-empty extension without a dot. */
  lemma ParseIffName(name: string, p: Parsed)
    ensures ParseRenditionName(name) == Some(p) <==>
            name == p.version + "-" + p.fmt + "." + p.ext && p.version != "" && KnownFmt(p.fmt) &&
            p.ext != "" && '.' !in p.ext
  {
    if CutName(name).Some? {
      CutSound(name);
    }
    if KnownFmt(p.fmt) {
      KnownFmtLetters(p.fmt);
      if p.version != "" && '.' !in p.ext {
        CutComplete(p);
      }
    }
  }

  /** What the writer names, the pruner and the retirer read back. */
  lemma NameRoundTrip(version: string, fmt: string, ext: string)
    requires KnownFmt(fmt) && ext != "" && '.' !in ext
    ensures ParseRenditionName(RenditionName(version, fmt, ext)) == Some(Parsed(SafeVersion(version), fmt, ext))
  {
    ParseIffName(RenditionName(version, fmt, ext), Parsed(SafeVersion(version), fmt, ext));
  }

  /** Two renditions share a name exactly when their sanitised version, fmt and extension agree. */
  lemma NameInjective(v: string, f: string, e: string, v': string, f': string, e': string)
    requires KnownFmt(f) && e != "" && '.' !in e
    requires KnownFmt(f') && e' != "" && '.' !in e'
    ensures RenditionName(v, f, e) == RenditionName(v', f', e') <==>
            SafeVersion(v) == SafeVersion(v') && f == f' && e == e'
  {
    NameRoundTrip(v, f, e);
    NameRoundTrip(v', f', e');
  }

  /** Sanitising settles in one step, and a version of safe characters is kept as it is. */
  lemma SafeVersionFixed(version: string)
    ensures SafeVersion(SafeVersion(version)) == SafeVersion(version)
    ensures SafeVersion(version) == version <==>
            version != "" && AllSafe(version)
  {
    SafeStays(SafeVersion(version));
    if version != "" && AllSafe(version) {
      SafeStays(version);
    }
  }

  lemma SafeStays(s: string)
    requires s != "" && AllSafe(s)
    ensures SafeVersion(s) == s
  {
    StripFixed(s);
    assert Sanitize(s) == s;
  }

  /** Every format that some producer writes is read back: the thirteen plain ones, and those of marked-up PDFs. */
  lemma EveryFormatParses(version: string, fmt: string, ext: string)
    requires ext != "" && '.' !in ext
    requires
      || fmt in ["thumbnail", "preview", "pdf", "poster", "model", "chatlog", "metamodel", "media", "media_sd", "audio",
                 "audio_opus", "emailposter", "extract"]
      || exists key :: OfAPdf(fmt, key)
    ensures ParseRenditionName(SafeVersion(version) + "-" + fmt + "." + ext) == Some(Parsed(SafeVersion(version), fmt, ext))
  {
    hide SafeVersion, ParseRenditionName, KnownFmt, OfAPdf;
    KnownFmtIff(fmt);
    NameRoundTrip(version, fmt, ext);
  }

  /** Sanitising merges versions: distinct source versions can name the same child. */
  lemma SafeVersionsCollide(v: string)
    requires v != "" && AllSafe(v)
    ensures v + " " + v != v + "_" + v
    ensures RenditionName(v + " " + v, "media", "webm") == RenditionName(v + "_" + v, "media", "webm")
  {
    hide SafeVersion, Strip, IsSpace;
    var a, b := v + " " + v, v + "_" + v;
    assert a[|v|] == ' ' && b[|v|] == '_';
    SafeVersionEnds(a);
    SafeVersionEnds(b);
    assert Sanitize(a) == Sanitize(b);
  }

  lemma SafeVersionEnds(s: string)
    requires s != "" && SafeChar(s[0]) && SafeChar(s[|s| - 1])
    ensures SafeVersion(s) == Sanitize(s)
  {
    StripFixed(s);
  }

  predicate UuidChar(c: char) {
    '0' <= c <= '9' || 'a' <= c <= 'f' || 'A' <= c <= 'F' || c == '-'
  }

  /** The audience sidecars of a shared file (`audience.csv`, which has no dash, and
      `audience-<link>.csv`) are never taken for renditions. */
  lemma SidecarNeverParses(link: string)
    requires forall i :: 0 <= i < |link| ==> UuidChar(link[i])
    ensures ParseRenditionName("audience" + "-" + link + "." + "csv") == None
  {
    var dash, tail := LastDash(link);
    var p := Parsed("audience" + ("-" + link)[..dash], tail, "csv");
    assert "audience" + "-" + link + "." + "csv" == p.version + "-" + p.fmt + "." + p.ext;
    CutComplete(p);
    if KnownFmt(p.fmt) {
      KnownFmtLetters(p.fmt);
    }
  }

  lemma NoDashNeverParses(name: string)
    requires '-' !in name
    ensures ParseRenditionName(name) == None
  {
    if CutName(name).Some? {
      CutSound(name);
    }
  }

  lemma LastDash(link: string) returns (dash: nat, tail: string)
    requires forall i :: 0 <= i < |link| ==> UuidChar(link[i])
    ensures dash <= |link| && ("-" + link)[dash] == '-' && tail == ("-" + link)[dash + 1..] && '-' !in tail
    ensures forall i :: 0 <= i < |tail| ==> UuidChar(tail[i])
  {
    var s := "-" + link;
    assert s[0] == '-';
    dash := RFind(s, '-');
    tail := s[dash + 1..];
    assert forall i :: 0 <= i < |tail| ==> tail[i] == s[dash + 1 + i] == link[dash + i];
  }
}
