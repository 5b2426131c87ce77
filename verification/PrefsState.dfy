/** The settings object that loading changes in place, each operation tied to its layer of the payload format. */
module PrefsState {
  import opened Limits
  import opened KindFilters
  import opened Intents
  import opened Prefs

  lemma NextKey(keys: seq<string>, i: nat)
    requires i < |keys|
    ensures NonEmpty(keys[..i + 1]) == NonEmpty(keys[..i]) + if keys[i] == "" then [] else [keys[i]]
  {
    assert keys[..i + 1][..i] == keys[..i];
  }

  lemma NextId(ids: seq<int>, i: nat)
    requires i < |ids|
    ensures Dedup(ids[..i + 1]) ==
            Dedup(ids[..i]) + if ids[i] <= 0 || ids[i] in Dedup(ids[..i]) then [] else [ids[i]]
  {
    assert ids[..i + 1][..i] == ids[..i];
  }

  class SettingsState {
    var s: Settings

    constructor (initial: Settings)
      ensures s == initial
    {
      s := initial;
    }

    method SetPresetIds(presets: Presets, theme: int, font: int)
      modifies this
      ensures s == SetPresets(old(s), presets, theme, font)
    {
      if theme in presets.themes {
        s := s.(theme := theme);
      }
      if font in presets.fonts {
        s := s.(font := font);
      }
    }

    /** Copies the non-empty project keys down into the leading slots and blanks the rest. */
    method CopyProjectFilters(p: Projects)
      modifies this
      ensures s == old(s).(projects := CompactProjects(p))
    {
      var slots := new string[SCOPE_FILTER_LIMIT](_ => "");
      var writeIndex := CollectKeys(p, slots);
      ghost var kept := slots[..writeIndex];
      BlankFrom(slots, writeIndex, "");
      s := s.(projects := Projects(writeIndex, slots[..]));
      hide NonEmpty, SelectedKeys;
      assert s.projects.keys == Slots(kept).keys;
    }

    static method CollectKeys(p: Projects, slots: array<string>) returns (writeIndex: nat)
      requires slots.Length == SCOPE_FILTER_LIMIT
      modifies slots
      ensures writeIndex <= slots.Length && slots[..writeIndex] == NonEmpty(SelectedKeys(p))
    {
      var loadCount := Clamp(p.count, 0, SCOPE_FILTER_LIMIT);
      writeIndex := 0;
      ghost var keys := SelectedKeys(p);
      assert loadCount == |keys| && NonEmpty(keys[..0]) == [];
      hide SelectedKeys, NonEmpty;
      for i := 0 to loadCount
        invariant 0 <= writeIndex <= i
        invariant slots[..writeIndex] == NonEmpty(keys[..i])
      {
        NextKey(keys, i);
        if KeyAt(p, i) == "" {
          continue;
        }
        ghost var before := slots[..writeIndex];
        slots[writeIndex] := KeyAt(p, i);
        writeIndex := writeIndex + 1;
        assert slots[..writeIndex] == before + [keys[i]];
        if writeIndex >= SCOPE_FILTER_LIMIT {
          assert i + 1 == loadCount;
          break;
        }
      }
      assert keys[..loadCount] == keys;
    }

    /** Copies the positive hidden ids, skipping repeats, and zeroes the rest. */
    method CopyHiddenAnchors(h: Hidden)
      modifies this
      ensures s == old(s).(hidden := IdSlots(Dedup(HiddenIds(h))))
    {
      var slots := new int[NODE_LIMIT](_ => 0);
      var writeIndex := CollectIds(h, slots);
      ghost var kept := slots[..writeIndex];
      BlankFrom(slots, writeIndex, 0);
      s := s.(hidden := Hidden(writeIndex, slots[..]));
      hide Dedup, HiddenIds;
      assert s.hidden.ids == IdSlots(kept).ids;
    }

    static method CollectIds(h: Hidden, slots: array<int>) returns (writeIndex: nat)
      requires slots.Length == NODE_LIMIT
      modifies slots
      ensures writeIndex <= slots.Length && slots[..writeIndex] == Dedup(HiddenIds(h))
    {
      var loadCount := Clamp(h.count, 0, NODE_LIMIT);
      writeIndex := 0;
      ghost var ids := HiddenIds(h);
      assert loadCount == |ids| && Dedup(ids[..0]) == [];
      hide HiddenIds, Dedup;
      for i := 0 to loadCount
        invariant 0 <= writeIndex <= i
        invariant slots[..writeIndex] == Dedup(ids[..i])
      {
        NextId(ids, i);
        var itemId := IdAt(h, i);
        ghost var before := slots[..writeIndex];
        if itemId <= 0 {
          continue;
        }
        var duplicate := IsDuplicate(slots, writeIndex, itemId);
        if duplicate {
          continue;
        }
        slots[writeIndex] := itemId;
        writeIndex := writeIndex + 1;
        assert slots[..writeIndex] == before + [ids[i]];
        if writeIndex >= NODE_LIMIT {
          assert i + 1 == loadCount;
          break;
        }
      }
      assert ids[..loadCount] == ids;
    }

    static method BlankFrom<T>(slots: array<T>, count: int, blank: T)
      requires 0 <= count <= slots.Length
      modifies slots
      ensures slots[..count] == old(slots[..count])
      ensures forall k :: count <= k < slots.Length ==> slots[k] == blank
    {
      for i := count to slots.Length
        invariant slots[..count] == old(slots[..count])
        invariant forall k :: count <= k < i ==> slots[k] == blank
      {
        slots[i] := blank;
      }
    }

    static method IsDuplicate(slots: array<int>, count: int, itemId: int) returns (duplicate: bool)
      requires 0 <= count <= slots.Length
      ensures duplicate <==> itemId in slots[..count]
    {
      for j := 0 to count
        invariant itemId !in slots[..j]
      {
        if slots[j] == itemId {
          return true;
        }
      }
      return false;
    }

    /** Fields versions 4 and 5 carry. */
    method LoadV5(presets: Presets, p: Payload)
      modifies this
      ensures s == ApplyV5(old(s), presets, p)
    {
      hide Synced, SingleSelected, CompactProjects;
      SetPresetIds(presets, p.theme, p.font);
      s := s.(paneLeft := RatioOrDefault(p.paneLeft), paneRight := RatioOrDefault(p.paneRight),
              paneDetail := RatioOrDefault(p.paneDetail), paneDetailTop := RatioOrDefault(p.paneDetailTop),
              leftCollapsed := Flag(p.leftCollapsed), rightCollapsed := Flag(p.rightCollapsed));
      s := s.(selected := IdOrNone(p.selected), offset := AtLeastZero(p.offset));
      CopyProjectFilters(p.projects);
      s := s.(kind := s.kind.(text := p.kindText));
      s := s.(kind := SingleSelected(s.kind, p.kindText));
      s := s.(kind := Synced(s.kind.(allOverride := Flag(p.kindOverride))));
      s := s.(edgeLimit := ClampEdgeLimit(p.edgeLimit), hops := ClampHops(p.hops), graphMode := 1);
      s := s.(panX := PanOrDefault(p.panX), panY := PanOrDefault(p.panY), zoom := ZoomOrDefault(p.zoom),
              search := p.search);
      s := s.(layout := 0, sort := 0, node := NodeFilter(NODE_MASK_ALL, 1));
    }

    method LoadV6(presets: Presets, p: Payload)
      modifies this
      ensures s == ApplyV6(old(s), presets, p)
    {
      hide ApplyV5;
      LoadV5(presets, p);
      s := s.(layout := ClampMode(p.layout), sort := ClampMode(p.sort));
      var override := Flag(p.nodeOverride);
      var mask := p.nodeMask & NODE_MASK_ALL;
      if override != 0 {
        mask := NODE_MASK_ALL;
      }
      s := s.(node := NodeFilter(mask, override), fullScope := 0);
    }

    method LoadV7(presets: Presets, p: Payload)
      modifies this
      ensures s == ApplyV7(old(s), presets, p)
    {
      hide ApplyV6;
      LoadV6(presets, p);
      s := s.(fullScope := Flag(p.fullScope));
    }

    method LoadV8(presets: Presets, p: Payload)
      modifies this
      ensures s == ApplyV8(old(s), presets, p)
    {
      hide ApplyV7, Synced;
      LoadV7(presets, p);
      var override := Flag(p.kindOverride);
      var mask := p.kindMask & EDGE_MASK_ALL;
      if override != 0 {
        mask := EDGE_MASK_ALL;
      }
      s := s.(kind := Synced(EdgeFilter(mask, override, s.kind.text)), funnel := Flag(p.funnel),
              labels := Flag(p.labels));
    }

    method LoadV9(presets: Presets, p: Payload)
      modifies this
      ensures s == ApplyV9(old(s), presets, p)
    {
      hide ApplyV8, IdSlots, Dedup, HiddenIds;
      LoadV8(presets, p);
      CopyHiddenAnchors(p.hidden);
    }

    method LoadV10(presets: Presets, p: Payload)
      modifies this
      ensures s == ApplyV10(old(s), presets, p)
    {
      hide ApplyV9;
      LoadV9(presets, p);
      var leftRatio := RatioOrDefault(p.leftTop);
      if leftRatio.value <= 0.0 {
        leftRatio := Finite(0.58);
      }
      s := s.(leftTop := leftRatio);
    }

    method LoadV11(presets: Presets, p: Payload)
      modifies this
      ensures s == ApplyV11(old(s), presets, p)
    {
      hide ApplyV10;
      LoadV10(presets, p);
      s := s.(textZoom := Clamp(p.textZoom, TEXT_ZOOM_MIN, TEXT_ZOOM_MAX));
    }

    method LoadV3(presets: Presets, p: PayloadV3)
      modifies this
      ensures s == ApplyV3(old(s), presets, p)
    {
      hide SingleSelected, CompactProjects;
      SetPresetIds(presets, p.theme, p.font);
      s := s.(paneLeft := RatioOrDefault(p.paneLeft), paneRight := RatioOrDefault(p.paneRight),
              paneDetail := Finite(0.0), paneDetailTop := Finite(0.0),
              leftCollapsed := Flag(p.leftCollapsed), rightCollapsed := Flag(p.rightCollapsed));
      s := s.(selected := IdOrNone(p.selected), offset := AtLeastZero(p.offset));
      CopyProjectFilters(p.projects);
      s := s.(kind := s.kind.(text := p.kindText));
      s := s.(kind := SingleSelected(s.kind, p.kindText));
      s := s.(edgeLimit := ClampEdgeLimit(p.edgeLimit), hops := ClampHops(p.hops), graphMode := 1);
      s := s.(panX := PanOrDefault(p.panX), panY := PanOrDefault(p.panY), zoom := ZoomOrDefault(p.zoom),
              search := p.search);
    }

    /** Dispatches on the version of a chunk. */
    method LoadChunk(presets: Presets, c: Chunk)
      modifies this
      ensures s == Load(old(s), presets, c)
    {
      hide ApplyV3, ApplyV5, ApplyV6, ApplyV7, ApplyV8, ApplyV9, ApplyV10, ApplyV11;
      var loadedAny := false;
      match c {
        case V1(theme, font) =>
          SetPresetIds(presets, theme, font);
          loadedAny := theme in presets.themes || font in presets.fonts;
        case V2(theme, font, left, right, leftCollapsed, rightCollapsed) =>
          SetPresetIds(presets, theme, font);
          var words := V2Words(leftCollapsed, rightCollapsed);
          s := s.(paneLeft := RatioOrDefault(left), paneRight := RatioOrDefault(right),
                  leftCollapsed := Flag(Word(words, LEFT_COLLAPSED_WORD)),
                  rightCollapsed := Flag(Word(words, RIGHT_COLLAPSED_WORD)));
          loadedAny := true;
        case V3(p3) =>
          LoadV3(presets, p3);
          loadedAny := true;
        case Layered(version, p) =>
          loadedAny := LoadLayered(presets, version, p);
        case Unrecognized =>
      }
      if loadedAny {
        s := s.(graphMode := 1);
      }
    }

    method LoadLayered(presets: Presets, version: int, p: Payload) returns (loaded: bool)
      modifies this
      ensures s == ApplyLayered(old(s), presets, version, p) && (loaded <==> 4 <= version <= PREFS_VERSION)
    {
      hide ApplyV5, ApplyV6, ApplyV7, ApplyV8, ApplyV9, ApplyV10, ApplyV11;
      loaded := true;
      if version == 4 {
        LoadV5(presets, p.(kindOverride := 0));
      } else if version == 5 {
        LoadV5(presets, p);
      } else if version == 6 {
        LoadV6(presets, p);
      } else if version == 7 {
        LoadV7(presets, p);
      } else if version == 8 {
        LoadV8(presets, p);
      } else if version == 9 {
        LoadV9(presets, p);
      } else if version == 10 {
        LoadV10(presets, p);
      } else if version == 11 {
        LoadV11(presets, p);
      } else {
        loaded := false;
      }
    }
  }
}
