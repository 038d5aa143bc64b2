// The Blender scripts that bake each animation frame of a model into its own
// glTF file (export_after_baking_particle_system_modifier.py,
// export_after_baking_explode_modifier_and_particle_system_modifier.py,
// export_after_baking_armature_modifier.py and
// export_blender_frame_by_frame.py). Blender is a host object with a current
// frame, a document, an undo stack and a log of exports; modifier evaluation
// and glTF encoding stay inside the host.

module BlenderExport {
  import opened Prelude

  // ---- Python's "%04d" ------------------------------------------------------

  function DigitChar(d: nat): (c: char)
    requires d < 10
    ensures '0' <= c <= '9' && c as int - '0' as int == d
  {
    ('0' as int + d) as char
  }

  predicate AllDigits(s: string)
  {
    forall i | 0 <= i < |s| :: '0' <= s[i] <= '9'
  }

  /** The decimal digits of `n`, most significant first, without leading zeros. */
  function Digits(n: nat): (s: string)
    ensures 1 <= |s| && AllDigits(s)
  {
    if n < 10 then [DigitChar(n)] else Digits(n / 10) + [DigitChar(n % 10)]
  }

  function Zeros(k: nat): (s: string)
    ensures |s| == k && AllDigits(s)
  {
    seq(k, _ => '0')
  }

  /** `s` with zeros in front up to `width` characters; longer strings are kept whole. */
  function ZeroPad(s: string, width: nat): string
  {
    if |s| >= width then s else Zeros(width - |s|) + s
  }

  /** `"%04d" % n`: at least four characters, zero-padded after the sign of a negative number. */
  function Format04(n: int): string
  {
    if n >= 0 then ZeroPad(Digits(n), 4) else "-" + ZeroPad(Digits(-n), 3)
  }

  /** The value of a string of decimal digits. */
  function ParseDigits(s: string): nat
    requires AllDigits(s)
  {
    if s == [] then 0 else ParseDigits(s[..|s| - 1]) * 10 + (s[|s| - 1] as int - '0' as int)
  }

  /** Reading back what `"%d"` or `"%04d"` printed: an optional minus sign, then digits. */
  function ParseDecimal(s: string): Option<int>
  {
    if |s| > 1 && s[0] == '-' && AllDigits(s[1..]) then Some(-(ParseDigits(s[1..]) as int))
    else if |s| > 0 && AllDigits(s) then Some(ParseDigits(s))
    else None
  }

  lemma {:induction false} ParseDigitsOfDigits(n: nat)
    ensures ParseDigits(Digits(n)) == n
  {
    if n >= 10 {
      ParseDigitsOfDigits(n / 10);
      var s := Digits(n / 10) + [DigitChar(n % 10)];
      assert s[..|s| - 1] == Digits(n / 10);
    }
  }

  lemma {:induction false} ParseDigitsOfZeros(k: nat)
    ensures ParseDigits(Zeros(k)) == 0
  {
    if k > 0 {
      ParseDigitsOfZeros(k - 1);
      assert Zeros(k)[..k - 1] == Zeros(k - 1);
    }
  }

  /** Leading zeros do not change the value. */
  lemma {:induction false} ParseDigitsLeadingZeros(k: nat, s: string)
    requires AllDigits(s)
    ensures AllDigits(Zeros(k) + s) && ParseDigits(Zeros(k) + s) == ParseDigits(s)
  {
    var z := Zeros(k) + s;
    if s == [] {
      assert z == Zeros(k);
      ParseDigitsOfZeros(k);
    } else {
      var init := s[..|s| - 1];
      ParseDigitsLeadingZeros(k, init);
      assert z[..|z| - 1] == Zeros(k) + init;
    }
  }

  lemma ParseZeroPad(n: nat, width: nat)
    ensures AllDigits(ZeroPad(Digits(n), width)) && ParseDigits(ZeroPad(Digits(n), width)) == n
  {
    ParseDigitsOfDigits(n);
    if |Digits(n)| < width {
      ParseDigitsLeadingZeros(width - |Digits(n)|, Digits(n));
    }
  }

  /** The printed frame number reads back as the number printed. */
  lemma {:induction false} Format04RoundTrip(n: int)
    ensures ParseDecimal(Format04(n)) == Some(n)
  {
    if n >= 0 {
      var p := ZeroPad(Digits(n), 4);
      ParseZeroPad(n, 4);
      assert |p| > 0 && p[0] != '-';
      assert ParseDecimal(p) == Some(ParseDigits(p));
    } else {
      var p := ZeroPad(Digits(-n), 3);
      ParseZeroPad(-n, 3);
      var s := "-" + p;
      assert s[1..] == p && |s| > 1 && s[0] == '-';
      assert ParseDecimal(s) == Some(-(ParseDigits(p) as int));
    }
  }

  /** Different numbers print differently. */
  lemma Format04Injective(n: int, m: int)
    requires Format04(n) == Format04(m)
    ensures n == m
  {
    Format04RoundTrip(n);
    Format04RoundTrip(m);
  }

  /** Numbers from 0 to 9999 print as exactly four digits. */
  lemma {:induction false} Format04Width(n: int)
    requires 0 <= n <= 9999
    ensures |Format04(n)| == 4 && AllDigits(Format04(n))
  {
    DigitsLength(n);
    var s := Digits(n);
    if |s| < 4 {
      assert Format04(n) == Zeros(4 - |s|) + s;
      assert forall i | 0 <= i < 4 :: Format04(n)[i] == if i < 4 - |s| then '0' else s[i - (4 - |s|)];
    }
  }

  lemma {:induction false} DigitsLength(n: nat)
    ensures n < 10 ==> |Digits(n)| == 1
    ensures n < 100 ==> |Digits(n)| <= 2
    ensures n < 1000 ==> |Digits(n)| <= 3
    ensures n < 10000 ==> |Digits(n)| <= 4
  {
    if n >= 10 {
      DigitsLength(n / 10);
    }
  }

  // ---- File names and the frame mapping -------------------------------------

  /** `"%s.f%04d.glb" % (filename, n)`. */
  function OutputPath(filename: string, n: int): string
  {
    filename + ".f" + Format04(n) + ".glb"
  }

  /** Two output paths of the same base name are equal only for the same frame number. */
  lemma OutputPathInjective(filename: string, n: int, m: int)
    requires OutputPath(filename, n) == OutputPath(filename, m)
    ensures n == m
  {
    var p, q := OutputPath(filename, n), OutputPath(filename, m);
    var k := |filename| + 2;
    assert p[k..|p| - 4] == Format04(n);
    assert q[k..|q| - 4] == Format04(m);
    Format04Injective(n, m);
  }

  /** `blender_frame_to_output_frame`: Python's `/` divides exactly, so the result is a float. */
  function BlenderFrameToOutputFrame(blenderFrame: int): real
  {
    (blenderFrame - 1) as real / 2.0 + 1.0
  }

  /** The number `"%04d"` prints for the mapped frame: the float truncated toward zero. */
  function OutputFrameNumber(blenderFrame: int): int
  {
    Trunc(BlenderFrameToOutputFrame(blenderFrame))
  }

  /** On odd frames the mapping is exact: frame 2k+1 becomes output k+1. */
  lemma OddFrameMapsExactly(k: int)
    ensures BlenderFrameToOutputFrame(2 * k + 1) == (k + 1) as real
    ensures OutputFrameNumber(2 * k + 1) == k + 1
  {
    assert (2 * k) as real / 2.0 == k as real;
  }

  /**
   * The odd frames 1, 3, ..., 2n-1 map one to one, in increasing order, onto
   * the dense outputs 1..n; an even frame falls halfway between two outputs.
   */
  lemma OddFramesMapOntoOutputs(n: nat)
    ensures forall k | 0 <= k < n :: OutputFrameNumber(2 * k + 1) == k + 1
    ensures forall k | 1 <= k :: BlenderFrameToOutputFrame(2 * k) == k as real + 0.5
  {
    forall k | 0 <= k < n ensures OutputFrameNumber(2 * k + 1) == k + 1 {
      OddFrameMapsExactly(k);
    }
  }

  // ---- The host -------------------------------------------------------------

  /** A modifier applied (baked) at a frame. */
  datatype Bake = Bake(modifier: string, frame: int)

  /** The part of the .blend document the scripts change: the active object's modifiers and what has been baked. */
  datatype Document = Document(modifiers: seq<string>, baked: seq<Bake>)

  /** One `bpy.ops.export_scene.gltf` call: its arguments, with the frame and document it saw. */
  datatype GltfExport = GltfExport(filepath: string, exportAnimations: bool, exportSkins: Option<bool>,
                                   exportCurrentFrame: bool, frame: int, document: Document)

  /** `modifiers` without `name`. */
  function Removed(modifiers: seq<string>, name: string): (r: seq<string>)
    ensures forall x :: x in r <==> x in modifiers && x != name
  {
    if modifiers == [] then []
    else Removed(modifiers[..|modifiers| - 1], name)
         + (if modifiers[|modifiers| - 1] == name then [] else [modifiers[|modifiers| - 1]])
  }

  /** The document after `modifier_apply(modifier=name)` at `frame`: the modifier is baked into the mesh and removed. */
  function Applied(doc: Document, name: string, frame: int): Document
  {
    Document(Removed(doc.modifiers, name), doc.baked + [Bake(name, frame)])
  }

  /** Blender, as far as the scripts touch it. */
  class Host {
    var frame: int
    var document: Document
    var undoStack: seq<Document>
    var exports: seq<GltfExport>

    constructor(frame: int, document: Document)
      ensures this.frame == frame && this.document == document && undoStack == [] && exports == []
    {
      this.frame := frame;
      this.document := document;
      undoStack := [];
      exports := [];
    }

    /** `bpy.context.scene.frame_set(f)`. */
    method FrameSet(f: int)
      modifies this
      ensures frame == f
      ensures document == old(document) && undoStack == old(undoStack) && exports == old(exports)
    {
      frame := f;
    }

    /**
     * `bpy.ops.object.modifier_apply(modifier=name)`: fails when the active
     * object has no such modifier; otherwise bakes it at the current frame
     * and records an undo step.
     */
    method ModifierApply(name: string) returns (ok: bool)
      modifies this
      ensures ok == (name in old(document.modifiers))
      ensures ok ==> document == Applied(old(document), name, frame) && undoStack == old(undoStack) + [old(document)]
      ensures !ok ==> document == old(document) && undoStack == old(undoStack)
      ensures frame == old(frame) && exports == old(exports)
    {
      ok := name in document.modifiers;
      if ok {
        undoStack := undoStack + [document];
        document := Applied(document, name, frame);
      }
    }

    /** `bpy.ops.ed.undo()`: fails on an empty undo stack; otherwise restores the last recorded document. */
    method Undo() returns (ok: bool)
      modifies this
      ensures ok == (old(undoStack) != [])
      ensures ok ==> document == old(undoStack)[|old(undoStack)| - 1] && undoStack == old(undoStack)[..|old(undoStack)| - 1]
      ensures !ok ==> document == old(document) && undoStack == old(undoStack)
      ensures frame == old(frame) && exports == old(exports)
    {
      ok := undoStack != [];
      if ok {
        document := undoStack[|undoStack| - 1];
        undoStack := undoStack[..|undoStack| - 1];
      }
    }

    /** `bpy.ops.export_scene.gltf(...)`: the file is written from the current frame and document. */
    method ExportGltf(filepath: string, exportAnimations: bool, exportSkins: Option<bool>, exportCurrentFrame: bool)
      modifies this
      ensures exports == old(exports) + [GltfExport(filepath, exportAnimations, exportSkins, exportCurrentFrame, frame, document)]
      ensures frame == old(frame) && document == old(document) && undoStack == old(undoStack)
    {
      exports := exports + [GltfExport(filepath, exportAnimations, exportSkins, exportCurrentFrame, frame, document)];
    }
  }

  // ---- What the scripts export ----------------------------------------------

  const EXPLODE: string := "Explode"
  const PARTICLE_SYSTEM: string := "ParticleSystem"
  const ARMATURE: string := "Armature"

  /** The export of one baked frame: `"%s.f%04d.glb"` of `output`, no animations, no skins, the current frame only. */
  function BakedExport(filename: string, frame: int, output: int, doc: Document): GltfExport
  {
    GltfExport(OutputPath(filename, output), false, Some(false), true, frame, doc)
  }

  /** The document an export sees after Explode and then ParticleSystem were applied at `frame`. */
  function ExplodedDocument(doc: Document, frame: int): Document
  {
    Applied(Applied(doc, EXPLODE, frame), PARTICLE_SYSTEM, frame)
  }

  /** The particle script's exports of frames 1..n: each frame under its own number, both modifiers baked. */
  function ParticleExports(filename: string, doc: Document, n: nat): (r: seq<GltfExport>)
    ensures |r| == n
  {
    if n == 0 then [] else ParticleExports(filename, doc, n - 1) + [BakedExport(filename, n, n, ExplodedDocument(doc, n))]
  }

  /**
   * The explode-and-particle script's first k exports: blender frames 1, 3,
   * ..., 2k-1, the i-th of them written as output i (that this is the number
   * `blender_frame_to_output_frame` gives is `OddFramesMapOntoOutputs`).
   */
  function OddFrameExports(filename: string, doc: Document, k: nat): (r: seq<GltfExport>)
    ensures |r| == k
  {
    if k == 0 then []
    else
      var f := 2 * (k - 1) + 1;
      OddFrameExports(filename, doc, k - 1) + [BakedExport(filename, f, k, ExplodedDocument(doc, f))]
  }

  /** The armature script's exports of frames 1..n, each with the armature baked at that frame. */
  function ArmatureExports(filename: string, doc: Document, n: nat): (r: seq<GltfExport>)
    ensures |r| == n
  {
    if n == 0 then [] else ArmatureExports(filename, doc, n - 1) + [BakedExport(filename, n, n, Applied(doc, ARMATURE, n))]
  }

  /** The frame-by-frame exports of `start..end`: the unchanged document at each frame, `export_skins` left unset. */
  function RangeExports(filename: string, doc: Document, start: int, end: int): (r: seq<GltfExport>)
    ensures |r| == if end < start then 0 else end - start + 1
    decreases end - start
  {
    if end < start then []
    else RangeExports(filename, doc, start, end - 1) + [GltfExport(OutputPath(filename, end), false, None, true, end, doc)]
  }

  // ---- Properties of the export lists ---------------------------------------

  /** No two exports of a list write the same file. */
  predicate DistinctPaths(es: seq<GltfExport>)
  {
    forall i, j | 0 <= i < j < |es| :: es[i].filepath != es[j].filepath
  }

  /** The exports' frames strictly increase. */
  predicate IncreasingFrames(es: seq<GltfExport>)
  {
    forall i, j | 0 <= i < j < |es| :: es[i].frame < es[j].frame
  }

  /** Files numbered by distinct numbers do not collide. */
  lemma DistinctNumbersDistinctPaths(filename: string, es: seq<GltfExport>, numbers: seq<int>)
    requires |numbers| == |es|
    requires forall i | 0 <= i < |es| :: es[i].filepath == OutputPath(filename, numbers[i])
    requires forall i, j | 0 <= i < j < |es| :: numbers[i] != numbers[j]
    ensures DistinctPaths(es)
  {
    forall i, j | 0 <= i < j < |es| ensures es[i].filepath != es[j].filepath {
      if es[i].filepath == es[j].filepath {
        OutputPathInjective(filename, numbers[i], numbers[j]);
      }
    }
  }

  /** Export i of the particle script is frame i+1 under its own number, with Explode and ParticleSystem baked at that frame. */
  lemma {:induction false} ParticleExportsAt(filename: string, doc: Document, n: nat)
    ensures forall i | 0 <= i < n ::
              ParticleExports(filename, doc, n)[i]
              == BakedExport(filename, i + 1, i + 1, ExplodedDocument(doc, i + 1))
  {
    forall i | 0 <= i < n
      ensures ParticleExports(filename, doc, n)[i] == BakedExport(filename, i + 1, i + 1, ExplodedDocument(doc, i + 1))
    {
      ParticleExportAt(filename, doc, n, i);
    }
  }

  lemma {:induction false} ParticleExportAt(filename: string, doc: Document, n: nat, i: nat)
    requires i < n
    ensures ParticleExports(filename, doc, n)[i] == BakedExport(filename, i + 1, i + 1, ExplodedDocument(doc, i + 1))
  {
    if i < n - 1 {
      ParticleExportAt(filename, doc, n - 1, i);
      assert ParticleExports(filename, doc, n)[i] == ParticleExports(filename, doc, n - 1)[i];
    }
  }

  /** The particle script's frames increase and no two of its files collide. */
  lemma ParticleExportsSpec(filename: string, doc: Document, n: nat)
    ensures IncreasingFrames(ParticleExports(filename, doc, n))
    ensures DistinctPaths(ParticleExports(filename, doc, n))
  {
    ParticleExportsAt(filename, doc, n);
    DistinctNumbersDistinctPaths(filename, ParticleExports(filename, doc, n), seq(n, i => i + 1));
  }

  /** Export i of the explode-and-particle script is blender frame 2i+1 written as output i+1. */
  lemma {:induction false} OddFrameExportsAt(filename: string, doc: Document, k: nat)
    ensures forall i | 0 <= i < k ::
              OddFrameExports(filename, doc, k)[i]
              == BakedExport(filename, 2 * i + 1, i + 1, ExplodedDocument(doc, 2 * i + 1))
  {
    forall i | 0 <= i < k
      ensures OddFrameExports(filename, doc, k)[i] == BakedExport(filename, 2 * i + 1, i + 1, ExplodedDocument(doc, 2 * i + 1))
    {
      OddFrameExportAt(filename, doc, k, i);
    }
  }

  lemma {:induction false} OddFrameExportAt(filename: string, doc: Document, k: nat, i: nat)
    requires i < k
    ensures OddFrameExports(filename, doc, k)[i] == BakedExport(filename, 2 * i + 1, i + 1, ExplodedDocument(doc, 2 * i + 1))
  {
    if i < k - 1 {
      OddFrameExportAt(filename, doc, k - 1, i);
      OddFrameExportsSnoc(filename, doc, k);
      var f := 2 * (k - 1) + 1;
      SnocKeepsIndex(OddFrameExports(filename, doc, k - 1), BakedExport(filename, f, k, ExplodedDocument(doc, f)), i);
    }
  }

  /** So the odd frames land on consecutive output numbers, in increasing order, and no two files collide. */
  lemma OddFrameExportsSpec(filename: string, doc: Document, k: nat)
    ensures IncreasingFrames(OddFrameExports(filename, doc, k))
    ensures DistinctPaths(OddFrameExports(filename, doc, k))
  {
    OddFrameExportsAt(filename, doc, k);
    DistinctNumbersDistinctPaths(filename, OddFrameExports(filename, doc, k), seq(k, i => i + 1));
  }

  /** Export i of the armature script is frame i+1 under its own number, with the armature baked at that frame. */
  lemma {:induction false} ArmatureExportsAt(filename: string, doc: Document, n: nat)
    ensures forall i | 0 <= i < n ::
              ArmatureExports(filename, doc, n)[i]
              == BakedExport(filename, i + 1, i + 1, Applied(doc, ARMATURE, i + 1))
  {
    forall i | 0 <= i < n
      ensures ArmatureExports(filename, doc, n)[i] == BakedExport(filename, i + 1, i + 1, Applied(doc, ARMATURE, i + 1))
    {
      ArmatureExportAt(filename, doc, n, i);
    }
  }

  lemma {:induction false} ArmatureExportAt(filename: string, doc: Document, n: nat, i: nat)
    requires i < n
    ensures ArmatureExports(filename, doc, n)[i] == BakedExport(filename, i + 1, i + 1, Applied(doc, ARMATURE, i + 1))
  {
    if i < n - 1 {
      ArmatureExportAt(filename, doc, n - 1, i);
      assert ArmatureExports(filename, doc, n)[i] == ArmatureExports(filename, doc, n - 1)[i];
    }
  }

  /** The armature script's frames increase and no two of its files collide. */
  lemma ArmatureExportsSpec(filename: string, doc: Document, n: nat)
    ensures IncreasingFrames(ArmatureExports(filename, doc, n))
    ensures DistinctPaths(ArmatureExports(filename, doc, n))
  {
    ArmatureExportsAt(filename, doc, n);
    DistinctNumbersDistinctPaths(filename, ArmatureExports(filename, doc, n), seq(n, i => i + 1));
  }

  /** Export i of the frame-by-frame script is frame start+i under its raw number, with the document untouched. */
  lemma {:induction false} RangeExportsAt(filename: string, doc: Document, start: int, end: int)
    ensures forall i | 0 <= i < |RangeExports(filename, doc, start, end)| ::
              RangeExports(filename, doc, start, end)[i]
              == GltfExport(OutputPath(filename, start + i), false, None, true, start + i, doc)
  {
    forall i | 0 <= i < |RangeExports(filename, doc, start, end)|
      ensures RangeExports(filename, doc, start, end)[i]
              == GltfExport(OutputPath(filename, start + i), false, None, true, start + i, doc)
    {
      RangeExportAt(filename, doc, start, end, i);
    }
  }

  lemma {:induction false} RangeExportAt(filename: string, doc: Document, start: int, end: int, i: nat)
    requires start + i <= end
    ensures RangeExports(filename, doc, start, end)[i]
            == GltfExport(OutputPath(filename, start + i), false, None, true, start + i, doc)
    decreases end - start
  {
    if start + i < end {
      RangeExportAt(filename, doc, start, end - 1, i);
      assert RangeExports(filename, doc, start, end)[i] == RangeExports(filename, doc, start, end - 1)[i];
    }
  }

  /** The frame-by-frame script's frames increase and no two of its files collide. */
  lemma RangeExportsSpec(filename: string, doc: Document, start: int, end: int)
    ensures IncreasingFrames(RangeExports(filename, doc, start, end))
    ensures DistinctPaths(RangeExports(filename, doc, start, end))
  {
    RangeExportsAt(filename, doc, start, end);
    var r := RangeExports(filename, doc, start, end);
    DistinctNumbersDistinctPaths(filename, r, seq(|r|, i => start + i));
  }

  // ---- The scripts ------------------------------------------------------------

  /**
   * The body of one frame of the two explode scripts: go to frame `f`, apply
   * Explode and then ParticleSystem, export as `output`, and undo twice, which
   * restores the document and the undo stack.
   */
  method BakeExplodeAndParticleFrame(host: Host, filename: string, f: int, output: int)
    requires EXPLODE in host.document.modifiers && PARTICLE_SYSTEM in host.document.modifiers
    modifies host
    ensures host.exports == old(host.exports) + [BakedExport(filename, f, output, ExplodedDocument(old(host.document), f))]
    ensures host.document == old(host.document) && host.undoStack == old(host.undoStack) && host.frame == f
  {
    host.FrameSet(f);
    var explodeApplied := host.ModifierApply(EXPLODE);
    var particlesApplied := host.ModifierApply(PARTICLE_SYSTEM);
    host.ExportGltf(OutputPath(filename, output), false, Some(false), true);
    var undone := host.Undo();
    undone := host.Undo();
  }

  /** The body of one frame of the armature script: go to frame `f`, apply Armature, export, undo once. */
  method BakeArmatureFrame(host: Host, filename: string, f: int)
    requires ARMATURE in host.document.modifiers
    modifies host
    ensures host.exports == old(host.exports) + [BakedExport(filename, f, f, Applied(old(host.document), ARMATURE, f))]
    ensures host.document == old(host.document) && host.undoStack == old(host.undoStack) && host.frame == f
  {
    host.FrameSet(f);
    var armatureApplied := host.ModifierApply(ARMATURE);
    host.ExportGltf(OutputPath(filename, f), false, Some(false), true);
    var undone := host.Undo();
  }

  /** Frame `f` of the particle script, keeping account of the exports so far against `ParticleExports`. */
  method ParticleScriptFrame(host: Host, filename: string, f: int, ghost exports0: seq<GltfExport>, ghost doc0: Document)
    requires 1 <= f && host.document == doc0 && EXPLODE in doc0.modifiers && PARTICLE_SYSTEM in doc0.modifiers
    requires host.exports == exports0 + ParticleExports(filename, doc0, f - 1)
    modifies host
    ensures host.exports == exports0 + ParticleExports(filename, doc0, f)
    ensures host.document == doc0 && host.undoStack == old(host.undoStack) && host.frame == f
  {
    ghost var prev := ParticleExports(filename, doc0, f - 1);
    BakeExplodeAndParticleFrame(host, filename, f, f);
    SnocAssociates(exports0, prev, BakedExport(filename, f, f, ExplodedDocument(doc0, f)));
  }

  /** Appending an export leaves the earlier ones where they were. */
  lemma SnocKeepsIndex(a: seq<GltfExport>, x: GltfExport, i: nat)
    requires i < |a|
    ensures (a + [x])[i] == a[i]
  {
  }

  /** Appending one export after two runs of exports. */
  lemma SnocAssociates(a: seq<GltfExport>, b: seq<GltfExport>, x: GltfExport)
    ensures (a + b) + [x] == a + (b + [x])
  {
  }

  /** The k-th odd frame's export follows the first k - 1. */
  lemma OddFrameExportsSnoc(filename: string, doc: Document, k: nat)
    requires k >= 1
    ensures OddFrameExports(filename, doc, k)
      == OddFrameExports(filename, doc, k - 1) + [BakedExport(filename, 2 * (k - 1) + 1, k, ExplodedDocument(doc, 2 * (k - 1) + 1))]
  {
  }

  /**
   * Frame `f`, the k-th odd frame, of the explode-and-particle script: the
   * file is numbered by `blender_frame_to_output_frame(f)`, which is k.
   */
  method OddScriptFrame(host: Host, filename: string, f: int, ghost k: nat, ghost exports0: seq<GltfExport>,
                        ghost doc0: Document)
    requires 1 <= k && f == 2 * (k - 1) + 1
    requires host.document == doc0 && EXPLODE in doc0.modifiers && PARTICLE_SYSTEM in doc0.modifiers
    requires host.exports == exports0 + OddFrameExports(filename, doc0, k - 1)
    modifies host
    ensures host.exports == exports0 + OddFrameExports(filename, doc0, k)
    ensures host.document == doc0 && host.undoStack == old(host.undoStack) && host.frame == f
  {
    var output := OutputFrameNumber(f);
    assert output == k by {
      OddFrameMapsExactly(k - 1);
    }
    ghost var prev := OddFrameExports(filename, doc0, k - 1);
    BakeExplodeAndParticleFrame(host, filename, f, output);
    OddFrameExportsSnoc(filename, doc0, k);
    SnocAssociates(exports0, prev, BakedExport(filename, f, k, ExplodedDocument(doc0, f)));
  }

  /** Frame `f` of the armature script, keeping account of the exports so far against `ArmatureExports`. */
  method ArmatureScriptFrame(host: Host, filename: string, f: int, ghost exports0: seq<GltfExport>, ghost doc0: Document)
    requires 1 <= f && host.document == doc0 && ARMATURE in doc0.modifiers
    requires host.exports == exports0 + ArmatureExports(filename, doc0, f - 1)
    modifies host
    ensures host.exports == exports0 + ArmatureExports(filename, doc0, f)
    ensures host.document == doc0 && host.undoStack == old(host.undoStack) && host.frame == f
  {
    ghost var prev := ArmatureExports(filename, doc0, f - 1);
    BakeArmatureFrame(host, filename, f);
    SnocAssociates(exports0, prev, BakedExport(filename, f, f, Applied(doc0, ARMATURE, f)));
  }

  /**
   * export_after_baking_particle_system_modifier.py: frames 1 to 29 in order,
   * each baked with Explode and ParticleSystem and exported under its own
   * number, the document restored after each; the selected mesh must carry
   * both modifiers. The output base name is a parameter.
   */
  method ExportAfterBakingParticleSystemModifier(host: Host, filename: string)
    requires EXPLODE in host.document.modifiers && PARTICLE_SYSTEM in host.document.modifiers
    modifies host
    ensures host.exports == old(host.exports) + ParticleExports(filename, old(host.document), 29)
    ensures host.document == old(host.document) && host.undoStack == old(host.undoStack) && host.frame == 29
  {
    ghost var exports0, doc0 := host.exports, host.document;
    assert host.exports == exports0 + [];
    var f := 1;
    ParticleScriptFrame(host, filename, f, exports0, doc0);
    f := 2;
    ParticleScriptFrame(host, filename, f, exports0, doc0);
    f := 3;
    ParticleScriptFrame(host, filename, f, exports0, doc0);
    f := 4;
    ParticleScriptFrame(host, filename, f, exports0, doc0);
    f := 5;
    ParticleScriptFrame(host, filename, f, exports0, doc0);
    f := 6;
    ParticleScriptFrame(host, filename, f, exports0, doc0);
    f := 7;
    ParticleScriptFrame(host, filename, f, exports0, doc0);
    f := 8;
    ParticleScriptFrame(host, filename, f, exports0, doc0);
    f := 9;
    ParticleScriptFrame(host, filename, f, exports0, doc0);
    f := 10;
    ParticleScriptFrame(host, filename, f, exports0, doc0);
    f := 11;
    ParticleScriptFrame(host, filename, f, exports0, doc0);
    f := 12;
    ParticleScriptFrame(host, filename, f, exports0, doc0);
    f := 13;
    ParticleScriptFrame(host, filename, f, exports0, doc0);
    f := 14;
    ParticleScriptFrame(host, filename, f, exports0, doc0);
    f := 15;
    ParticleScriptFrame(host, filename, f, exports0, doc0);
    f := 16;
    ParticleScriptFrame(host, filename, f, exports0, doc0);
    f := 17;
    ParticleScriptFrame(host, filename, f, exports0, doc0);
    f := 18;
    ParticleScriptFrame(host, filename, f, exports0, doc0);
    f := 19;
    ParticleScriptFrame(host, filename, f, exports0, doc0);
    f := 20;
    ParticleScriptFrame(host, filename, f, exports0, doc0);
    f := 21;
    ParticleScriptFrame(host, filename, f, exports0, doc0);
    f := 22;
    ParticleScriptFrame(host, filename, f, exports0, doc0);
    f := 23;
    ParticleScriptFrame(host, filename, f, exports0, doc0);
    f := 24;
    ParticleScriptFrame(host, filename, f, exports0, doc0);
    f := 25;
    ParticleScriptFrame(host, filename, f, exports0, doc0);
    f := 26;
    ParticleScriptFrame(host, filename, f, exports0, doc0);
    f := 27;
    ParticleScriptFrame(host, filename, f, exports0, doc0);
    f := 28;
    ParticleScriptFrame(host, filename, f, exports0, doc0);
    f := 29;
    ParticleScriptFrame(host, filename, f, exports0, doc0);
  }

  /**
   * export_after_baking_explode_modifier_and_particle_system_modifier.py:
   * the odd frames 1 to 41 in order, each baked with Explode and
   * ParticleSystem and exported under its mapped number 1 to 21, the
   * document restored after each.
   */
  method ExportAfterBakingExplodeModifierAndParticleSystemModifier(host: Host, filename: string)
    requires EXPLODE in host.document.modifiers && PARTICLE_SYSTEM in host.document.modifiers
    modifies host
    ensures host.exports == old(host.exports) + OddFrameExports(filename, old(host.document), 21)
    ensures host.document == old(host.document) && host.undoStack == old(host.undoStack) && host.frame == 41
  {
    ghost var exports0, doc0 := host.exports, host.document;
    assert host.exports == exports0 + [];
    var f := 1;
    OddScriptFrame(host, filename, f, 1, exports0, doc0);
    f := 3;
    OddScriptFrame(host, filename, f, 2, exports0, doc0);
    f := 5;
    OddScriptFrame(host, filename, f, 3, exports0, doc0);
    f := 7;
    OddScriptFrame(host, filename, f, 4, exports0, doc0);
    f := 9;
    OddScriptFrame(host, filename, f, 5, exports0, doc0);
    f := 11;
    OddScriptFrame(host, filename, f, 6, exports0, doc0);
    f := 13;
    OddScriptFrame(host, filename, f, 7, exports0, doc0);
    f := 15;
    OddScriptFrame(host, filename, f, 8, exports0, doc0);
    f := 17;
    OddScriptFrame(host, filename, f, 9, exports0, doc0);
    f := 19;
    OddScriptFrame(host, filename, f, 10, exports0, doc0);
    f := 21;
    OddScriptFrame(host, filename, f, 11, exports0, doc0);
    f := 23;
    OddScriptFrame(host, filename, f, 12, exports0, doc0);
    f := 25;
    OddScriptFrame(host, filename, f, 13, exports0, doc0);
    f := 27;
    OddScriptFrame(host, filename, f, 14, exports0, doc0);
    f := 29;
    OddScriptFrame(host, filename, f, 15, exports0, doc0);
    f := 31;
    OddScriptFrame(host, filename, f, 16, exports0, doc0);
    f := 33;
    OddScriptFrame(host, filename, f, 17, exports0, doc0);
    f := 35;
    OddScriptFrame(host, filename, f, 18, exports0, doc0);
    f := 37;
    OddScriptFrame(host, filename, f, 19, exports0, doc0);
    f := 39;
    OddScriptFrame(host, filename, f, 20, exports0, doc0);
    f := 41;
    OddScriptFrame(host, filename, f, 21, exports0, doc0);
  }

  /** `frame_start` and `frame_end` of the armature script, declared and never read. */
  const ARMATURE_FRAME_START: int := 1
  const ARMATURE_FRAME_END: int := 29

  /**
   * export_after_baking_armature_modifier.py: frames 1 to 29 in order, each
   * baked with Armature and exported under its own number, the document
   * restored after each.
   */
  method ExportAfterBakingArmatureModifier(host: Host, filename: string)
    requires ARMATURE in host.document.modifiers
    modifies host
    ensures host.exports == old(host.exports) + ArmatureExports(filename, old(host.document), 29)
    ensures host.document == old(host.document) && host.undoStack == old(host.undoStack) && host.frame == 29
  {
    ghost var exports0, doc0 := host.exports, host.document;
    assert host.exports == exports0 + [];
    var f := 1;
    ArmatureScriptFrame(host, filename, f, exports0, doc0);
    f := 2;
    ArmatureScriptFrame(host, filename, f, exports0, doc0);
    f := 3;
    ArmatureScriptFrame(host, filename, f, exports0, doc0);
    f := 4;
    ArmatureScriptFrame(host, filename, f, exports0, doc0);
    f := 5;
    ArmatureScriptFrame(host, filename, f, exports0, doc0);
    f := 6;
    ArmatureScriptFrame(host, filename, f, exports0, doc0);
    f := 7;
    ArmatureScriptFrame(host, filename, f, exports0, doc0);
    f := 8;
    ArmatureScriptFrame(host, filename, f, exports0, doc0);
    f := 9;
    ArmatureScriptFrame(host, filename, f, exports0, doc0);
    f := 10;
    ArmatureScriptFrame(host, filename, f, exports0, doc0);
    f := 11;
    ArmatureScriptFrame(host, filename, f, exports0, doc0);
    f := 12;
    ArmatureScriptFrame(host, filename, f, exports0, doc0);
    f := 13;
    ArmatureScriptFrame(host, filename, f, exports0, doc0);
    f := 14;
    ArmatureScriptFrame(host, filename, f, exports0, doc0);
    f := 15;
    ArmatureScriptFrame(host, filename, f, exports0, doc0);
    f := 16;
    ArmatureScriptFrame(host, filename, f, exports0, doc0);
    f := 17;
    ArmatureScriptFrame(host, filename, f, exports0, doc0);
    f := 18;
    ArmatureScriptFrame(host, filename, f, exports0, doc0);
    f := 19;
    ArmatureScriptFrame(host, filename, f, exports0, doc0);
    f := 20;
    ArmatureScriptFrame(host, filename, f, exports0, doc0);
    f := 21;
    ArmatureScriptFrame(host, filename, f, exports0, doc0);
    f := 22;
    ArmatureScriptFrame(host, filename, f, exports0, doc0);
    f := 23;
    ArmatureScriptFrame(host, filename, f, exports0, doc0);
    f := 24;
    ArmatureScriptFrame(host, filename, f, exports0, doc0);
    f := 25;
    ArmatureScriptFrame(host, filename, f, exports0, doc0);
    f := 26;
    ArmatureScriptFrame(host, filename, f, exports0, doc0);
    f := 27;
    ArmatureScriptFrame(host, filename, f, exports0, doc0);
    f := 28;
    ArmatureScriptFrame(host, filename, f, exports0, doc0);
    f := 29;
    ArmatureScriptFrame(host, filename, f, exports0, doc0);
  }

  /** The export of frame `end` follows those of `start .. end - 1`. */
  lemma RangeExportsSnoc(filename: string, doc: Document, start: int, end: int)
    requires start <= end
    ensures RangeExports(filename, doc, start, end)
      == RangeExports(filename, doc, start, end - 1) + [GltfExport(OutputPath(filename, end), false, None, true, end, doc)]
  {
  }

  /**
   * export_blender_frame_by_frame.py: `for f in range(frame_start,
   * frame_end + 1)` sets the frame and exports it under its raw number, with
   * no modifier applied; nothing is exported when `frame_end < frame_start`.
   * The script fixes the bounds at 1 and 29; here they are parameters.
   */
  method ExportBlenderFrameByFrame(host: Host, filename: string, frameStart: int, frameEnd: int)
    modifies host
    ensures host.exports == old(host.exports) + RangeExports(filename, old(host.document), frameStart, frameEnd)
    ensures host.document == old(host.document) && host.undoStack == old(host.undoStack)
    ensures host.frame == if frameEnd < frameStart then old(host.frame) else frameEnd
  {
    ghost var exports0, doc0, undo0, frame0 := host.exports, host.document, host.undoStack, host.frame;
    var f := frameStart;
    while f < frameEnd + 1
      invariant f == frameStart || frameStart < f <= frameEnd + 1
      invariant host.exports == exports0 + RangeExports(filename, doc0, frameStart, f - 1)
      invariant host.document == doc0 && host.undoStack == undo0
      invariant host.frame == if f == frameStart then frame0 else f - 1
      decreases frameEnd + 1 - f
    {
      host.FrameSet(f);
      host.ExportGltf(OutputPath(filename, f), false, None, true);
      RangeExportsSnoc(filename, doc0, frameStart, f);
      f := f + 1;
    }
    assert RangeExports(filename, doc0, frameStart, f - 1) == RangeExports(filename, doc0, frameStart, frameEnd);
  }

  /** `frame_start` and `frame_end` of export_blender_frame_by_frame.py. */
  const FRAME_BY_FRAME_START: int := 1
  const FRAME_BY_FRAME_END: int := 29

  /** The script as it stands: frames 1 to 29, one export each, every file under its own name. */
  method ExportBlenderFrameByFrameScript(host: Host, filename: string)
    modifies host
    ensures host.exports == old(host.exports) + RangeExports(filename, old(host.document), 1, 29)
    ensures |host.exports| == |old(host.exports)| + 29
    ensures host.document == old(host.document) && host.undoStack == old(host.undoStack) && host.frame == 29
  {
    ExportBlenderFrameByFrame(host, filename, FRAME_BY_FRAME_START, FRAME_BY_FRAME_END);
  }
}
