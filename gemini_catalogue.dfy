/** The catalogue of Gemini models offered in the settings page, and the accessors over it. */
module GeminiCatalogue {
  import opened Wrappers
  import opened Seqs
  import opened GeminiModels

  /** The catalogue, in the order the settings page lists it. */
  const GEMINI_MODELS: seq<GeminiModel> := [
    GeminiModel("gemini-3-pro-preview", "Gemini 3 Pro (Preview)",
      "全球领先的多模态理解模型，最强大的智能体和氛围编程模型。支持文本、图片、视频、音频和PDF输入。",
      Some(65536), Some(1048576), Some(["文本", "图片", "视频", "音频", "PDF"]), Some(["文本"]), Preview),
    GeminiModel("gemini-3-pro-image-preview", "Gemini 3 Pro Image (Preview)",
      "Gemini 3 Pro 图片预览版，支持图片和文字输入，可生成图片和文字输出。",
      Some(32768), Some(65536), Some(["图片", "文字"]), Some(["图片", "文字"]), Preview),
    GeminiModel("gemini-2.5-flash", "Gemini 2.5 Flash",
      "性价比出色的模型，最适合大规模处理、低延迟、高数据量任务。稳定版本，推荐用于生产环境。",
      Some(8192), Some(1000000), Some(["文本", "图片", "视频", "音频"]), Some(["文本"]), Stable),
    GeminiModel("gemini-2.5-flash-preview-09-2025", "Gemini 2.5 Flash (Preview 09/2025)",
      "Gemini 2.5 Flash 预览版，包含最新功能更新。",
      Some(8192), Some(1000000), None, None, Preview),
    GeminiModel("gemini-2.0-flash-preview", "Gemini 2.0 Flash (Preview)",
      "第二代快速模型预览版，支持多模态输入。",
      Some(8192), Some(1000000), Some(["文本", "图片", "视频", "音频"]), Some(["文本"]), Preview),
    GeminiModel("gemini-2.0-flash-preview-image-generation", "Gemini 2.0 Flash Image Generation",
      "Gemini 2.0 Flash 图片生成预览版，支持图片生成功能。",
      Some(8192), Some(32768), Some(["音频", "图片", "视频", "文本"]), Some(["文字", "图片"]), Preview),
    GeminiModel("gemini-2.0-flash-lite", "Gemini 2.0 Flash-Lite",
      "第二代小型主力模型，可处理100万个词元的上下文窗口。优化了成本效益和延迟时间。",
      Some(8192), Some(1048576), Some(["音频", "图片", "视频", "文本"]), Some(["文本"]), Stable)
  ]

  /** `getModelById`. */
  function GetModelById(id: string): Option<GeminiModel> {
    Find(GEMINI_MODELS, id)
  }

  /** `getStableModels`. */
  function GetStableModels(): (r: seq<GeminiModel>)
    ensures forall m :: m in r <==> m in GEMINI_MODELS && m.status == Stable
    ensures IsSubsequence(r, GEMINI_MODELS)
  {
    WithStatus(GEMINI_MODELS, Stable)
  }

  /** `getPreviewModels`. */
  function GetPreviewModels(): (r: seq<GeminiModel>)
    ensures forall m :: m in r <==> m in GEMINI_MODELS && m.status == Preview
    ensures IsSubsequence(r, GEMINI_MODELS)
  {
    WithStatus(GEMINI_MODELS, Preview)
  }

  /** Catalogue ids are pairwise distinct. */
  lemma CatalogueIdsDistinct()
    ensures DistinctIds(GEMINI_MODELS)
  {
    // The ids all have different lengths.
    var lengths := [20, 26, 16, 32, 24, 41, 21];
    assert |GEMINI_MODELS| == |lengths|;
    assert forall i :: 0 <= i < |GEMINI_MODELS| ==> |GEMINI_MODELS[i].id| == lengths[i];
  }

  /** `getModelById(m.id)` is `m` for every catalogue entry. */
  lemma GetModelByIdOfEntry(m: GeminiModel)
    requires m in GEMINI_MODELS
    ensures GetModelById(m.id) == Some(m)
  {
    CatalogueIdsDistinct();
    FindOwnId(GEMINI_MODELS, m);
  }

  /** The default model is in the catalogue and is a stable one. */
  lemma DefaultModelIsStable()
    ensures GetModelById(DEFAULT_MODEL).Some?
    ensures GetModelById(DEFAULT_MODEL).value.status == Stable
    ensures GetModelById(DEFAULT_MODEL).value in GetStableModels()
  {
    GetModelByIdOfEntry(GEMINI_MODELS[2]);
  }

  /** No model is both stable and preview, and both lists keep catalogue order. */
  lemma StableAndPreviewDisjoint()
    ensures forall m :: m in GetStableModels() ==> m !in GetPreviewModels()
    ensures IsSubsequence(GetStableModels(), GEMINI_MODELS)
    ensures IsSubsequence(GetPreviewModels(), GEMINI_MODELS)
  {
  }
}
