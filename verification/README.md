# Rose renderer decision logic in Dafny

Rose is a small Vulkan renderer. This project models the sequential logic beneath its Vulkan calls, as pure functions over plain data and small state records. Every Vulkan, VMA, shaderc, spirv_cross, stb_image, assimp and GLFW call is either an input or an event in a call trace. The project proves what each piece promises:

- **Shaders.** Combined shader files are split at `#type` marker lines (both the newer `API/Shader.cpp` and the older `Renderer/Shader.cpp`). Reflected uniform-block members are laid out back to back. The descriptor and viewport configuration is fixed. Shader modules are created and destroyed in a fixed order.
- **Swapchain and device.** This covers the swapchain choices: surface format, present mode, extent, image count, sharing mode and depth memory type. It also covers Vulkan device setup: the physical-device pick, the two queue-family scans, instance extensions, the validation layer and the enabled device features.
- **Resources.** The freed flags of `VertexBuffer`, `IndexBuffer`, `Image` and `Texture2D` guard their destructors. `VKMemAllocator` keeps allocation counters. `SetData` copies bytes into mapped memory. The layout-transition table drives `Texture2D`'s upload order.
- **Smaller pieces.** These are the vertex attribute layout, the model importer's pre-order node walk, triangle grouping and index flattening, and the camera controller's button flags and minimum zoom distance.

Each module follows one source file, and each `.cpp` is modelled as written, even where its header declares something else. Module `Lifecycle` counts the creates and destroys in a call trace, so "balanced" means every object created is destroyed exactly once. Module `Common` models uint32 wrap-around (`ToUint32`). `MemoryType` holds the "lowest allowed memory type with the wanted flags, else 0" rule that five source files repeat.

## Model

| member | source | states |
|---|---|---|
| Application.ChooseSwapSurfaceFormat | Rose/src/Rose/Core/Application.cpp:672-681 | B8G8R8A8_SRGB with the sRGB non-linear colour space is chosen whenever the surface offers it; otherwise the first reported format |
| Application.FindQueueFamilies | Rose/src/Rose/Core/Application.cpp:252-270 | the scan stops at the first family index by which both a graphics-capable and a present-capable family have been seen (or at the end of the list), and it reports the last graphics-capable and the last present-capable index before that stop |
| Application.ScanFindsBothWhenAvailable | Rose/src/Rose/Core/Application.cpp:253-266 | whenever the device has some graphics family and some present family, the scan reports both |
| Application.SwapchainQueueSetup | Rose/src/Rose/Core/Application.cpp:325-353 | the setup fails (the unchecked `value()` throws) exactly when either family is missing; otherwise the swapchain asks for one image more than the surface minimum, and its images are shared concurrently between [graphics, present] exactly when the two families differ (exclusive otherwise) |
| Application.QuadIsTwoTriangles | Rose/src/Rose/Core/Application.cpp:59-69 | the index data is whole triangles over the four vertices, both triangles wind counter-clockwise, and together they cover exactly the unit square |
| Application.VertexBufferSize | Rose/src/Rose/Core/Application.cpp:435 | the vertex buffer holds exactly one stride per vertex, with no partial element |
| Application.IndexBufferSize | Rose/src/Rose/Core/Application.cpp:481 | the index buffer holds exactly four bytes per index, with no partial element |
| Application.QuadDrawStaysInBuffers | Rose/src/Rose/Core/Application.cpp:597 | the indexed draw of all six indices reads only inside the 24-byte index buffer and fetches only vertices inside the 80-byte vertex buffer |
| Application.BufferMemoryType | Rose/src/Rose/Core/Application.cpp:449-457 | the buffer memory type is the lowest type allowed by the requirement bits that is host-visible and host-coherent; 0 when there is none |
| Application.UploadArray | Rose/src/Rose/Core/Application.cpp:471-474 | after the mapped copy, reading back the first bytes of the memory yields exactly the uploaded array, and the memory keeps its size |
| Application.AllPresent | Rose/src/Rose/Core/Application.cpp:200-217 | the nested search answers true exactly when every required name occurs among the candidates |
| Application.CheckValidationLayerSupport | Rose/src/Rose/Core/Application.cpp:191-218 | as written (the property vector is never sized): the check succeeds exactly when no layer is required |
| Application.CheckValidationLayerSupportCorrected | Rose/src/Rose/Core/Application.cpp:191-218 | with the vector filled and layer names compared: succeeds exactly when every required layer is reported by name |
| Application.GetRequiredExtensions | Rose/src/Rose/Core/Application.cpp:766-778 | the list is GLFW's extensions in GLFW's order followed by exactly one entry, the debug-utils extension |
| Application.RecordingDrawsCorrectly | Rose/src/Rose/Core/Application.cpp:567-602 | the recorded buffer is bracketed by begin/end, the draw of all indices lies inside the render pass on the image's framebuffer, after the pipeline and both buffers are bound |
| Application.FramesRun | Rose/src/Rose/Core/Application.cpp:604-647 | any number of frames runs from start-up without a wait that never returns and without a call that breaks a semaphore or fence rule |
| Application.UnsignaledFenceBlocksFirstFrame | Rose/src/Rose/Core/Application.cpp:556-558 | the signaled creation flag is needed: with an unsignaled fence the first frame's wait never returns |
| Application.NetOfConstructor | Rose/src/Rose/Core/Application.cpp:52-84 | the constructor leaves live exactly the objects it owns: the fixed objects plus one view and one framebuffer per swapchain image, each once |
| Application.NetOfCleanUp | Rose/src/Rose/Core/Application.cpp:727-760 | CleanUp releases each owned object exactly once and nothing else |
| Application.CleanUpReleasesEverything | Rose/src/Rose/Core/Application.cpp:727-760 | construction followed by CleanUp is balanced for every object, and CleanUp never destroys an object before one that depends on it |
| MemoryType.FindMemoryType | Rose/src/Rose/Renderer/API/VertexBuffer.cpp:82-90 | the chosen index is suitable (allowed by the requirement bits and carrying every filter flag) exactly when some index is, no lower index is suitable, and 0 is the fallback when none is |
| MemoryType.HostFilterPicksMappableMemory | Rose/src/Rose/Renderer/API/VertexBuffer.cpp:83 | when some type is host-visible and host-coherent, the type the buffers pick carries both flags, so it can be mapped and needs no flush |
| HostMemory.CopyIn | Rose/src/Rose/Renderer/API/VertexBuffer.cpp:42-45 | map, copy and unmap overwrite exactly the first `size` bytes with the source and leave the rest of the allocation as it was |
| HostMemory.CopyThenReadBack | Rose/src/Rose/Renderer/API/VertexBuffer.cpp:42-45 | reading back the bytes just copied yields the copied bytes |
| BufferResource.Allocate | Rose/src/Rose/Renderer/API/VertexBuffer.cpp:62-97 | a new buffer and memory pair with a fresh identity is created with the requested usage, on the lowest host-visible, host-coherent memory type (0 when none); size and flag are untouched |
| BufferResource.SetData | Rose/src/Rose/Renderer/API/VertexBuffer.cpp:35-47 | the recorded size becomes `size`, reading back `size` bytes of the memory yields the data's prefix, the rest of the memory is unchanged, and no handle is created or released |
| BufferResource.FreeThenDestructReleasesOnce | Rose/src/Rose/Renderer/API/VertexBuffer.cpp:23-27 | an explicit FreeMemory followed by destruction releases the current pair exactly once: the destructor sees the flag and does nothing |
| BufferResource.DoubleFreeDestroysTwice | Rose/src/Rose/Renderer/API/VertexBuffer.cpp:49-55 | FreeMemory ignores the flag, so calling it twice destroys the same pair twice |
| VertexBuffer.RecreateBuffer | Rose/src/Rose/Renderer/API/VertexBuffer.cpp:57-98 | the flag is cleared and a new pair with vertex-buffer usage is created; the previous events are kept |
| VertexBuffer.ConstructWithData | Rose/src/Rose/Renderer/API/VertexBuffer.cpp:8-14 | the buffer is created, bound and filled: the first `size` bytes read back as the data, in the call order create, bind, write |
| VertexBuffer.ConstructWithSize | Rose/src/Rose/Renderer/API/VertexBuffer.cpp:16-21 | only the pair is created: nothing is bound and nothing written |
| VertexBuffer.ConstructThenDestroyBalanced | Rose/src/Rose/Renderer/API/VertexBuffer.cpp:23-27 | a buffer built with data and then destroyed, with or without an explicit FreeMemory first, releases every handle it created exactly once |
| VertexBuffer.RecreateLeaksPreviousPair | Rose/src/Rose/Renderer/API/VertexBuffer.cpp:57-72 | recreating a live buffer overwrites its handles: destruction releases only the new pair and the old pair stays live |
| VertexBuffer.RecreateAfterFreeIsReleased | Rose/src/Rose/Renderer/API/VertexBuffer.cpp:59 | because RecreateBuffer clears the flag, a freed and then recreated buffer is released by its destructor and the whole history is balanced |
| IndexBuffer.RecreateBuffer | Rose/src/Rose/Renderer/API/IndexBuffer.cpp:54-96 | a new pair with index-buffer usage is created and the freed flag is left as it was |
| IndexBuffer.ConstructWithData | Rose/src/Rose/Renderer/API/IndexBuffer.cpp:8-14 | the buffer is created, bound and filled: the first `size` bytes read back as the data, in the call order create, bind, write |
| IndexBuffer.ConstructWithSize | Rose/src/Rose/Renderer/API/IndexBuffer.cpp:16-20 | only the pair is created: nothing is bound and nothing written |
| IndexBuffer.ConstructThenDestroyBalanced | Rose/src/Rose/Renderer/API/IndexBuffer.cpp:22-26 | a buffer built with data and then destroyed, with or without an explicit FreeMemory first, releases every handle it created exactly once |
| IndexBuffer.RecreateLeaksPreviousPair | Rose/src/Rose/Renderer/API/IndexBuffer.cpp:54-68 | recreating a live buffer overwrites its handles: destruction releases only the new pair and the old pair stays live |
| IndexBuffer.RecreateAfterFreeLeaks | Rose/src/Rose/Renderer/API/IndexBuffer.cpp:54-56 | because this RecreateBuffer does not clear the flag, a freed and then recreated buffer stays marked freed; its destructor does nothing and the new pair is never released |
| MemAllocator.AllocateBuffer | Rose/src/Rose/Renderer/API/VKMemAllocator.cpp:44-62 | a buffer allocation raises the buffer counter by one and leaves the image counter alone; a null output pointer is refused |
| MemAllocator.AllocateImage | Rose/src/Rose/Renderer/API/VKMemAllocator.cpp:64-83 | an image allocation raises the image counter by one and leaves the buffer counter alone; a null output pointer is refused |
| MemAllocator.FreeBuffer | Rose/src/Rose/Renderer/API/VKMemAllocator.cpp:96-102 | freeing a buffer lowers the buffer counter by one, with no check against zero |
| MemAllocator.FreeImage | Rose/src/Rose/Renderer/API/VKMemAllocator.cpp:105-110 | freeing an image lowers the image counter by one, with no check against zero |
| MemAllocator.FreeWithoutAllocationGoesNegative | Rose/src/Rose/Renderer/API/VKMemAllocator.cpp:100 | a free with nothing allocated drives the counter to -1 |
| MemAllocator.CountersTrackCalls | Rose/src/Rose/Renderer/API/VKMemAllocator.cpp:58 | after any call sequence each counter has moved by its allocations minus its frees, whatever the order |
| MemAllocator.BalancedCallsRestoreCounters | Rose/src/Rose/Renderer/API/VKMemAllocator.cpp:96-110 | a call sequence that frees as many buffers and images as it allocates restores both counters |
| MemAllocator.Shutdown | Rose/src/Rose/Renderer/API/VKMemAllocator.cpp:29-42 | shutdown reports a buffer leak exactly when the buffer counter is non-zero and an image leak exactly when the image counter is, buffers first |
| MemAllocator.BalancedRunReportsNoLeak | Rose/src/Rose/Renderer/API/VKMemAllocator.cpp:31-39 | from a fresh allocator, balanced calls leave shutdown nothing to report |
| BufferResource.FreeMemory | Rose/src/Rose/Renderer/API/VertexBuffer.cpp:49-55 | FreeMemory sets the freed flag and destroys the current buffer and memory pair without looking at the flag first |
| Image.Construct | Rose/src/Rose/Renderer/API/Image.cpp:11-35 | as written: a 2D, one-level, one-layer R8G8B8A8 sRGB image of the given size (cast to uint32) for transfer and sampling is created through the allocator, which counts one image, but the allocation handle it returns is dropped, so the bind uses no handle |
| Image.AllocationHandleNeverStored | Rose/src/Rose/Renderer/API/Image.cpp:32-34 | as written the bind and the later free both use a handle that was never set; with the returned handle stored, both use that handle |
| Image.TransitionLayout | Rose/src/Rose/Renderer/API/Image.cpp:44-85 | the barrier covers the colour aspect of level 0 and keeps queue ownership; undefined-to-transfer waits on nothing and makes transfer writes available, transfer-to-shader-read waits on the transfer and makes shader reads available, and every other pair gets empty masks and stages |
| Image.UploadTransitionsChain | Rose/src/Rose/Renderer/API/Image.cpp:65-78 | in the upload chain the second barrier starts from the layout, stage and access the first one ends with, and ends with shader reads |
| Image.CopyBufferToImage | Rose/src/Rose/Renderer/API/Image.cpp:87-117 | the copy reads tightly packed texels from the start of the buffer into the whole extent of level 0, layer 0, of an image in the transfer-destination layout |
| Image.CopyReadsWholeExtent | Rose/src/Rose/Renderer/API/Image.cpp:92-107 | for dimensions that fit in uint32 the copy reads exactly width * height texels from the buffer |
| Image.ViewLoopAfter | Rose/src/Rose/Renderer/API/Image.cpp:128-148 | after k iterations the view list holds the `amount` empty slots of the resize followed by k appended views, and the counter is k |
| Image.CreateImageViewsNeverExits | Rose/src/Rose/Renderer/API/Image.cpp:129 | for any amount of at least one, the loop guard holds after every number of iterations, so the loop never ends |
| Image.CreateImageViewsCorrected | Rose/src/Rose/Renderer/API/Image.cpp:119-150 | the corrected loop fills the `amount` slots with `amount` new views, in order, and changes nothing else |
| Image.DestroyImage | Rose/src/Rose/Renderer/API/Image.cpp:152-164 | the image is marked freed, every stored view that is a real handle is destroyed, then the allocation is freed with the image, lowering the allocator's image counter |
| Image.ImageLifetimeBalanced | Rose/src/Rose/Renderer/API/Image.cpp:37-42 | an image built with its allocation stored and n views, then destroyed, releases the image and every view exactly once and restores the allocator's image counter |
| Image.DestroyThenDestructIsIdle | Rose/src/Rose/Renderer/API/Image.cpp:39-40 | an explicit Destroy followed by destruction destroys nothing twice |
| Image.ConstructCorrected | Rose/src/Rose/Renderer/API/Image.cpp:11-35 | with the allocator's result stored, the image is created with the same configuration and counters and is bound to exactly that allocation |
| Texture.CreateSampler | Rose/src/Rose/Renderer/API/Texture.cpp:79-113 | the sampler filters linearly, repeats on all three axes, uses normalised coordinates without comparison, samples level 0 only, and enables anisotropy at the device's own limit |
| Texture.SamplerValidOnRendererDevice | Rose/src/Rose/Renderer/API/Texture.cpp:97-99 | on the logical device the renderer creates (anisotropic sampling enabled) the sampler obeys the sampler valid-usage rules for any limit of at least 1 |
| Texture.SamplerValidIffLimitAtLeastOne | Rose/src/Rose/Renderer/API/Texture.cpp:97-108 | the sampler is valid on that device exactly when the reported anisotropy limit is at least 1 |
| Texture.StagingSize | Rose/src/Rose/Renderer/API/Texture.cpp:26 | the staging size, the int product width * height * 4 cast to uint32, never exceeds the decoded pixels, and equals their length whenever the product fits in uint32 |
| Texture.Construct | Rose/src/Rose/Renderer/API/Texture.cpp:15-59 | as written: a failed decode returns with nothing created and the freed flag still cleared; a decoded file builds the image with its allocation dropped, stages and uploads the pixels, and never returns, because it hangs in the view loop before any sampler exists; one more image allocation is counted by then and the buffer count is unchanged |
| Texture.ConstructHangsInViewLoop | Rose/src/Rose/Renderer/API/Texture.cpp:45-56 | for every decoded file, the constructor calls CreateImageViews with amount 1 on the image it built, and that loop's guard holds after every number of iterations, so construction never returns; by then the staging buffer has been created and destroyed and no sampler has been created |
| Texture.ConstructCorrected | Rose/src/Rose/Renderer/API/Texture.cpp:15-59 | with the flag set on the early return and Image's corrected constructor and view loop: the flag is set exactly when decoding failed, and a decoded file makes the as-written calls followed by one view and the sampler, with the returned allocation stored in the image and the same allocator counters |
| Texture.UploadLeavesImageShaderReadable | Rose/src/Rose/Renderer/API/Texture.cpp:45-56 | the image starts undefined, every transition starts from the image's current layout, the copy happens in the transfer-destination layout, and the image is shader-readable both where the constructor as written hangs and after the views and the sampler |
| Texture.StagingCoversImage | Rose/src/Rose/Renderer/API/Texture.cpp:26-48 | when the byte size fits in uint32 the staging buffer receives every decoded byte and the buffer-to-image copy reads exactly the staged bytes |
| Texture.DestroyTexture | Rose/src/Rose/Renderer/API/Texture.cpp:70-77 | Destroy faults exactly when there is no image (a null shared pointer); otherwise it marks the texture freed, destroys the sampler and destroys the image, which lowers the image count |
| Texture.Destruct | Rose/src/Rose/Renderer/API/Texture.cpp:61-68 | the destructor does nothing on a freed texture and runs Destroy otherwise |
| Texture.FailedLoadDestructorDereferencesNull | Rose/src/Rose/Renderer/API/Texture.cpp:19-25 | as written, a file that fails to decode makes the constructor return, and destroying that texture dereferences the null image |
| Texture.TextureTraceBalanced | Rose/src/Rose/Renderer/API/Texture.cpp:36-75 | for a construction that gets past the view loop (the corrected one), the calls from construction to Destroy create and destroy the staging buffer and the sampler exactly once each |
| Texture.CorrectedTextureLifetime | Rose/src/Rose/Renderer/API/Texture.cpp:15-77 | with the three corrections (the flag on the early return, Image's constructor and Image's view loop), destruction never faults, leaves the allocator's counters where they were, and balances the texture's own and its image's creations and destructions; a second destruction does nothing |
| Model.VertexAt | Rose/src/Rose/Renderer/Model.cpp:63-67 | the vertex carries the imported position and every other attribute at its default |
| Model.Triangles | Rose/src/Rose/Renderer/Model.cpp:51-72 | the reference meaning of the vertex loop: one triangle per complete group of three consecutive positions, in order |
| Model.TrianglesPushedLosesLast | Rose/src/Rose/Renderer/Model.cpp:56-60 | the loop as written pushes one triangle fewer than there are complete groups exactly when the vertex count is a positive multiple of three, and never more |
| Model.OneTriangleMeshIsEmpty | Rose/src/Rose/Renderer/Model.cpp:54-72 | a mesh of exactly one triangle comes out with no triangle at all |
| Model.FlattenLength | Rose/src/Rose/Renderer/Model.cpp:75-82 | the index list is as long as all faces' index counts together |
| Model.TriangulatedIndexCount | Rose/src/Rose/Renderer/Model.cpp:17 | after triangulation, with three indices per face, the index list holds three indices per face |
| Model.FlattenFaces | Rose/src/Rose/Renderer/Model.cpp:75-82 | the nested loop appends every face's indices, face after face, in order |
| Model.CreateMesh | Rose/src/Rose/Renderer/Model.cpp:46-85 | as written: the triangles are the first TrianglesPushed complete groups, in order, and the indices are all faces' indices in order |
| Model.CreateMeshCorrected | Rose/src/Rose/Renderer/Model.cpp:46-85 | with each triangle pushed as its third vertex arrives: every complete group becomes a triangle, and the indices are unchanged |
| Model.ConcatContains | Rose/src/Rose/Renderer/Model.cpp:31-44 | a reference occurs in the joined lists exactly when it occurs in one of them |
| Model.PreOrderStartsWithOwnMeshes | Rose/src/Rose/Renderer/Model.cpp:33-37 | a node's own meshes are collected before any of its children's |
| Model.PreOrderVisitsEveryReference | Rose/src/Rose/Renderer/Model.cpp:31-44 | a mesh is collected under a node exactly when the node or one of its children's subtrees references it |
| Model.PreOrderLength | Rose/src/Rose/Renderer/Model.cpp:33-41 | the traversal collects one entry for each mesh reference of each node in the subtree, mNumMeshes summed over the tree |
| Model.ProcessNode | Rose/src/Rose/Renderer/Model.cpp:31-44 | ProcessNode appends to the list already collected, and only appends: the mesh built from each reference of the subtree, node before children, children in order |
| Model.LoadModel | Rose/src/Rose/Renderer/Model.cpp:13-28 | loading fails exactly when the importer returned no scene, the scene is flagged incomplete or it has no root; otherwise the meshes are those of the whole tree in traversal order |
| Camera.SetFlag | Rose/src/Rose/Renderer/PerspectiveCamera.cpp:213-246 | button 0 drives the left flag, 1 the right and 2 the middle; any other number touches no flag |
| Camera.Press | Rose/src/Rose/Renderer/PerspectiveCamera.cpp:213-229 | pressing sets the flag of that button and changes nothing else; the action argument is ignored |
| Camera.Release | Rose/src/Rose/Renderer/PerspectiveCamera.cpp:231-246 | releasing clears the flag of that button and changes nothing else |
| Camera.PressHoldsOnlyThatButton | Rose/src/Rose/Renderer/PerspectiveCamera.cpp:213-229 | an unknown button changes nothing; a known one becomes held while the other two keep their state |
| Camera.PressThenReleaseRestores | Rose/src/Rose/Renderer/PerspectiveCamera.cpp:213-246 | releasing a button that was not held before the press restores the controller exactly |
| Camera.ZoomSpeed | Rose/src/Rose/Renderer/PerspectiveCamera.cpp:192-195 | the zoom speed lies between 0 and 100 and is the square of a fifth of the distance whenever that square is at most 100 |
| Camera.Zoom | Rose/src/Rose/Renderer/PerspectiveCamera.cpp:196-201 | after offsetting, the distance is at least 1; an offset that stays at or above 1 changes only the distance, and one that falls below is clamped to 1 with the focal point moved one step forward |
| Camera.Scroll | Rose/src/Rose/Renderer/PerspectiveCamera.cpp:248-261 | scrolling zooms by a fifth of the vertical wheel offset times the zoom speed, towards the focal point for an upward scroll, and leaves the buttons and mouse alone |
| Camera.ScrollDirection | Rose/src/Rose/Renderer/PerspectiveCamera.cpp:250-260 | from a distance of at least 1, scrolling up never moves the camera away and never closer than 1, and scrolling down never moves it closer |
| Camera.ModeOf | Rose/src/Rose/Renderer/PerspectiveCamera.cpp:151-190 | the update pans exactly when the left button is held, orbits exactly when right is held and left is not, zooms exactly when only middle among the three priorities is held, and is idle when none is |
| Camera.Update | Rose/src/Rose/Renderer/PerspectiveCamera.cpp:146-205 | the mouse delta is 0.003 times the travel since the last update and the current position becomes the previous one; pan moves only the focal point, orbit turns yaw (signed by the up direction) and pitch by delta times the rotation speed, a middle drag zooms by the vertical delta, and idle leaves the camera alone |
| Camera.MouseMoved | Rose/src/Rose/Renderer/PerspectiveCamera.cpp:263-267 | a mouse move records the position and changes nothing else |
| Camera.DistanceNeverBelowOne | Rose/src/Rose/Renderer/PerspectiveCamera.cpp:146-267 | from a distance of at least 1, no sequence of presses, releases, moves, scrolls and updates brings the camera closer than 1 to its focal point |
| Camera.NewCamera | Rose/src/Rose/Renderer/PerspectiveCamera.cpp:21-34 | the constructed camera looks at the origin from the distance of (-5, 5, 5), which is at least 1, so the distance invariant holds from the start |
| Camera.NewController | Rose/src/Rose/Renderer/PerspectiveCamera.cpp:139-143 | a new controller holds no button and turns at the rotation speed 0.8 |
| Camera.ConstructedCameraNeverBelowOne | Rose/src/Rose/Renderer/PerspectiveCamera.cpp:21-267 | a controller built around a newly constructed camera keeps it at least 1 from its focal point through any sequence of inputs |
| ShaderSource.RunMatchesReference | Rose/src/Rose/Renderer/API/Shader.cpp:172-190 | after any number of lines the splitter's current stage is the one named by the last marker line so far (vertex before any), and each slot holds exactly the non-marker lines of its stage, each followed by a newline |
| ShaderSource.CollectWithoutWrites | Rose/src/Rose/Renderer/API/Shader.cpp:185-189 | a stage's collected text is empty exactly when no line was written to it |
| ShaderSource.ParseShaders | Rose/src/Rose/Renderer/API/Shader.cpp:157-199 | as written: a file with pixel lines yields both stages' texts; a file without any leaves the pixel entry as it was and stores an empty vertex text, whatever the vertex lines were |
| ShaderSource.VertexOnlyFileLosesSource | Rose/src/Rose/Renderer/API/Shader.cpp:191-198 | a two-line vertex-only file whose vertex text is one line of code comes out with an empty vertex source |
| ShaderSource.ParseShadersCorrected | Rose/src/Rose/Renderer/API/Shader.cpp:191-198 | storing only slots that were written: a stage has an entry exactly when it had one before or the file has lines for it, a written stage gets exactly its lines, and an unwritten one keeps its old text |
| ShaderReflection.FromSpirvType | Rose/src/Rose/Renderer/API/Shader.cpp:67-83 | the member kind keeps the SPIR-V base type, is a 4x4 matrix exactly when the base type is float with four columns, and is never None, Bool or UInt32 |
| ShaderReflection.TypeBytes | Rose/src/Rose/Renderer/API/Shader.cpp:85-95 | a kind's size is its component size times its component count, between 1 and 64 bytes |
| ShaderReflection.ReflectMembers | Rose/src/Rose/Renderer/API/Shader.cpp:605-621 | the member loop describes each member with its converted kind, that kind's size, and as offset the uint32 sum of the sizes of the members before it |
| ShaderReflection.MembersPacked | Rose/src/Rose/Renderer/API/Shader.cpp:605-617 | while the total size fits in uint32 the members lie back to back from offset 0, each starting where the previous one ends, the last ending at the total |
| ShaderReflection.StageNameSelectsStage | Rose/src/Rose/Renderer/API/Shader.cpp:41-48 | a stage's name, written after "#type", is a marker line that the splitter reads as that same stage |
| ShaderReflection.Reflect | Rose/src/Rose/Renderer/API/Shader.cpp:583-626 | the resource is named shader-name "::" stage-name, its counts match the reported blocks and sampled images, and each reflected block has the reported binding, uint32 declared size and member count, with every member described as the member loop does |
| ShaderReflection.UniformBufferRequests | Rose/src/Rose/Renderer/API/Shader.cpp:444-499 | one exclusive uniform-buffer request per block of every resource, each on the lowest host-visible, host-coherent memory type when there is one |
| ShaderReflection.RequestPosition | Rose/src/Rose/Renderer/API/Shader.cpp:446-457 | block k of resource r gets the buffer at position (blocks of earlier resources) + k, sized to that block's reflected size |
| ShaderPipeline.SetLayoutBindings | Rose/src/Rose/Renderer/API/Shader.cpp:416-442 | the set layout has unique binding numbers, needs one uniform buffer and no image sampler, and every binding is visible to the vertex stage |
| ShaderPipeline.DescriptorPoolConfig | Rose/src/Rose/Renderer/API/Shader.cpp:513-531 | the pool can serve the one set allocated from it with that layout, and not two |
| ShaderPipeline.DescriptorWriteConfig | Rose/src/Rose/Renderer/API/Shader.cpp:560-568 | the single write targets a binding of the layout with its descriptor type, stays inside its array, and covers the size of two 4x4 float matrices |
| ShaderPipeline.FlippedViewport | Rose/src/Rose/Renderer/API/Shader.cpp:282-288 | the viewport maps normalised x from -1..1 to 0..width and normalised y = -1 to the bottom row (height) and y = 1 to row 0, with depth 0..1 |
| ShaderPipeline.Scissor | Rose/src/Rose/Renderer/API/Shader.cpp:290-292 | the scissor starts at the origin and covers exactly the area the viewport maps onto |
| ShaderPipeline.CreateModuleInfo | Rose/src/Rose/Renderer/API/Shader.cpp:232-247 | the module's codeSize is in bytes, a multiple of four, and covers exactly the given words |
| ShaderPipeline.StageFlag | Rose/src/Rose/Renderer/API/Shader.cpp:32-39 | the vertex stage gets the vertex flag and the pixel stage the fragment flag |
| ShaderPipeline.PipelineStages | Rose/src/Rose/Renderer/API/Shader.cpp:249-264 | the pipeline's fixed stage count of two is invalid exactly when the module map holds fewer than two modules; otherwise it gets two stage infos, one vertex and one fragment, each with its module and entry point "main" |
| ShaderPipeline.ModulesLiveOnlyDuringConstruction | Rose/src/Rose/Renderer/API/Shader.cpp:100-128 | every shader module is live when the pipeline is created and none is live once the constructor returns |
| ShaderPipeline.ConstructThenDestroyBalanced | Rose/src/Rose/Renderer/API/Shader.cpp:134-155 | construction followed by DestroyPipeline releases every object the shader created exactly once |
| LegacyShader.ParseShaders | Rose/src/Rose/Renderer/Shader.cpp:74-116 | the older class splits files exactly like the newer one, including the loss of the vertex text in a file without pixel lines |
| LegacyShader.CompiledWords | Rose/src/Rose/Renderer/Shader.cpp:139 | as written, the stored word vector of every compiled stage is empty |
| LegacyShader.CompiledWordsDropOutput | Rose/src/Rose/Renderer/Shader.cpp:139 | a stage the compiler produced any words for keeps none of them |
| LegacyShader.CompiledWordsCorrected | Rose/src/Rose/Renderer/Shader.cpp:139 | with the range ending at the compiler's end the stored words are exactly the compiler's output |
| LegacyShader.CreateModuleInfo | Rose/src/Rose/Renderer/Shader.cpp:144-156 | as written codeSize is the word count, which matches the byte size of the code only for empty code |
| LegacyShader.CreateModuleInfoUndersized | Rose/src/Rose/Renderer/Shader.cpp:148 | a one-word module is declared as one byte: not a multiple of four, and a quarter of its real size |
| LegacyShader.Viewport | Rose/src/Rose/Renderer/Shader.cpp:186-192 | the older viewport maps normalised x from -1..1 to 0..width and normalised y from -1..1 to 0..height, with depth 0..1 |
| LegacyShader.ViewportsMirrored | Rose/src/Rose/Renderer/Shader.cpp:186-192 | the two classes' viewports agree on x and are vertical mirror images over the same extent |
| LegacyShader.VertexInputState | Rose/src/Rose/Renderer/Shader.cpp:175-177 | the older pipeline declares no vertex binding and no vertex attribute |
| LegacyShader.ModulesOutliveDestroyPipeline | Rose/src/Rose/Renderer/Shader.cpp:44-72 | after construction and DestroyPipeline the pipeline layout is released but every shader module created is still live |
| SurfaceSelection.ChooseSurfaceFormat | Rose/src/Rose/Renderer/SwapChain.cpp:225-234 | the preferred format with the sRGB non-linear colour space is chosen whenever the surface offers it; otherwise the first reported format |
| SurfaceSelection.ChoosePresentMode | Rose/src/Rose/Renderer/SwapChain.cpp:236-245 | MAILBOX whenever the surface offers it, FIFO otherwise |
| SurfaceSelection.ChooseExtent | Rose/src/Rose/Renderer/SwapChain.cpp:247-266 | the surface's current extent unless its width is the UINT32_MAX sentinel; then an extent inside the allowed range on both axes, on each axis equal to the framebuffer size when that is in range, to the minimum when it is below and to the maximum when it is above |
| SurfaceSelection.InRangeFramebufferKept | Rose/src/Rose/Renderer/SwapChain.cpp:256-262 | with the sentinel extent, a framebuffer size inside the allowed range is used unchanged |
| SurfaceSelection.ImageCount | Rose/src/Rose/Renderer/SwapChain.cpp:31 | the request is one image more than the surface minimum, wrapping to 0 in uint32 when the minimum is UINT32_MAX |
| SurfaceSelection.ImageCountExceedsMaximum | Rose/src/Rose/Renderer/SwapChain.cpp:31-41 | a surface with minimum and maximum both 2 gets a request of 3, which breaks the swapchain's image-count rule |
| SurfaceSelection.ImageCountCorrected | Rose/src/Rose/Renderer/SwapChain.cpp:31 | capped at the maximum, the request always satisfies the image-count rule, and it is still one above the minimum whenever the maximum allows that |
| SurfaceSelection.ChooseSharing | Rose/src/Rose/Renderer/SwapChain.cpp:54-63 | the images are shared concurrently between exactly the two families when they differ, and exclusively with no family list otherwise |
| SwapChain.ChooseSwapSurfaceFormat | Rose/src/Rose/Renderer/SwapChain.cpp:225-234 | B8G8R8A8_UNORM with the sRGB non-linear colour space is chosen whenever the surface offers it; otherwise the first reported format |
| SwapChain.SwapchainCreateInfo | Rose/src/Rose/Renderer/SwapChain.cpp:19-73 | the create info asks for the computed image count; B8G8R8A8_UNORM with sRGB non-linear when the surface offers it, else the first format; MAILBOX exactly when offered, else FIFO; concurrent sharing over [graphics, present] exactly when the families differ, exclusive with no family list otherwise; the chosen extent; one layer of colour-attachment images; clipped |
| SwapChain.DepthMemoryType | Rose/src/Rose/Renderer/SwapChain.cpp:119-127 | the depth memory type is the lowest type allowed by the requirement bits that is device-local; 0 when there is none |
| SwapChain.DestroyOrderRespectsDependencies | Rose/src/Rose/Renderer/SwapChain.cpp:161-172 | Destroy never releases an object before one that depends on it: views before their images, the swapchain before the surface |
| SwapChain.NetOfInit | Rose/src/Rose/Renderer/SwapChain.cpp:19-159 | after the surface and Init, the surface, swapchain, depth image, depth memory, depth view and one colour view per image are each live once |
| SwapChain.NetOfDestroy | Rose/src/Rose/Renderer/SwapChain.cpp:161-172 | Destroy releases each of those objects once, except the depth memory, which it never frees |
| SwapChain.DepthMemoryOutlivesDestroy | Rose/src/Rose/Renderer/SwapChain.cpp:161-172 | as written, after Init and Destroy everything is released except the depth image's memory, which stays allocated |
| SwapChain.CorrectedDestroyBalanced | Rose/src/Rose/Renderer/SwapChain.cpp:161-172 | with the depth memory freed after the depth image, Init followed by Destroy is balanced and still releases children first |
| VertexLayout.VertexStride | Rose/src/Rose/Core/Application.h:24-28 | one vertex is two position floats and three colour floats, 20 bytes, a multiple of the float alignment |
| VertexLayout.GetBindingDescription | Rose/src/Rose/Core/Application.h:29-37 | binding 0 advances by one whole vertex per vertex |
| VertexLayout.GetAttributeDescription | Rose/src/Rose/Core/Application.h:39-55 | location i reads exactly member i from binding 0 with a format of that member's size; every attribute lies inside the stride and no two overlap |
| RenderDevice.SelectPhysicalDevice | Rose/src/Rose/Renderer/RenderDevice.cpp:19-43 | the first discrete GPU is selected, and the last device when there is none; the stored properties are the selected device's |
| RenderDevice.ScanQueueFamilies | Rose/src/Rose/Renderer/RenderDevice.cpp:75-100 | the scan stops at the first family that can transfer once a graphics family has been seen (at that family or before); the transfer index is that stop and the graphics index is the last graphics family up to it, or up to the end when there is no stop |
| RenderDevice.ScanStopsByCombinedFamily | Rose/src/Rose/Renderer/RenderDevice.cpp:79-100 | when some family does both graphics and transfer, the scan stops at or before it with both indices assigned |
| RenderDevice.QueueCreateInfos | Rose/src/Rose/Renderer/RenderDevice.cpp:105-123 | one queue of priority 1 is requested from the graphics family and one from the transfer family, in that order |
| RenderDevice.FlushIsBalanced | Rose/src/Rose/Renderer/RenderDevice.cpp:158-211 | a flush creates the two semaphores and the fence, submits once, waits on the fence, and destroys all three, leaving nothing behind |
| RenderDevice.FlushAsWrittenIsInvalid | Rose/src/Rose/Renderer/RenderDevice.cpp:166-191 | as written the submission breaks two rules of vkQueueSubmit, the fence is already signaled and the batch waits on a semaphore no operation signals, and the fence wait would return before the batch finished |
| RenderDevice.FlushCorrectedCompletes | Rose/src/Rose/Renderer/RenderDevice.cpp:166-195 | with an unsignaled fence and no wait semaphore, the flush runs to the end and destroys its objects only after the batch has completed |
| RenderDevice.ShutdownOrder | Rose/src/Rose/Renderer/RenderDevice.cpp:213-220 | Shutdown destroys the command pool before waiting for the device to go idle and then destroys the device; since the constructor creates neither, the pair releases two objects it never created |
| RendererContext.InstanceExtensions | Rose/src/Rose/Renderer/RendererContext.cpp:65-73 | the instance extensions are GLFW's list in its order followed by exactly one entry, the debug-utils extension |
| RendererContext.SameExtensionsAsApplication | Rose/src/Rose/Renderer/RendererContext.cpp:70-73 | the renderer asks for exactly the extensions the application driver asks for |
| RendererContext.DetectValidationLayer | Rose/src/Rose/Renderer/RendererContext.cpp:96-117 | the validation layer is enabled exactly when some reported layer has its name, and only that layer; the names logged are the reported ones in order, up to and including the first match, or all of them when there is none |
| RendererContext.EnabledFeatures | Rose/src/Rose/Renderer/RendererContext.cpp:138-144 | the device features are exactly the five requested ones (anisotropic sampling, wide lines, non-solid fill, independent blend, pipeline statistics) and no other |
| RendererContext.ErrorLoggedOnlyOnSuccess | Rose/src/Rose/Renderer/RendererContext.cpp:129-131 | as written, "ERROR!" is logged exactly when instance creation succeeded, because VK_FALSE and VK_SUCCESS are both 0 |
| RendererContext.LogsInstanceErrorCorrected | Rose/src/Rose/Renderer/RendererContext.cpp:129-131 | the intended check logs exactly when instance creation did not succeed |
| RendererContext.Init | Rose/src/Rose/Renderer/RendererContext.cpp:55-149 | Init builds the extension list, enables the validation layer exactly when reported, requests exactly the five features, logs the layer header first, logs the missing-layer line exactly when the layer is absent and the error line exactly on success, and creates the instance, the messenger and then the two devices |
| RendererContext.InitShutdownBalanced | Rose/src/Rose/Renderer/RendererContext.cpp:151-156 | Shutdown releases both objects Init created, the messenger before its instance |

## Left out

- File reading, stb_image decoding and assimp import: the shader text arrives as a sequence of lines, a decoded image as its width, height and pixels, and a scene as a node tree datatype.
- Every Vulkan, VMA, shaderc and spirv_cross call: each is an input value or an event in a call trace. GPU-side execution is not modelled. The only fence and semaphore behaviour modelled is the small set of valid-usage rules that `RenderDevice.FlushStep` and `Application.Step` check.
- The shaderc compilation itself and spirv_cross's queries: reflection works from a list of member base types and column counts.
- GLFW windowing, the Win32 surface, `Editor/ImguiLayer.cpp`, `Core/Log.cpp` and `Test.cpp`: they are windowing, UI and printf glue. Log output appears only where the decision logic chooses a line.
- Camera matrix and quaternion maths, and the smoothing polynomials in `PerspectiveCamera.cpp`: these are floating-point numerics. The pan, up and forward directions are parameters of `Camera.Update`, and the pan speed factors are folded into the pan offset. Distances are reals, not 32-bit floats.
- `Material.h`'s default-texture singleton: glue.
- Application.cpp:683-713 (`ChooseSwapPresentMode`, `ChooseSwapExtent`) repeats the SwapChain.cpp rules line for line, so it is modelled once, by `SurfaceSelection`.
- Application.cpp:221-315: the physical-device pick is `devices[0]`, and the device-extension loop only logs. Neither is modelled.
- Descriptor-set handles and the values written through mapped uniform memory: only the counts and sizes of the uniform buffers are modelled.
- `ASSERT()` is modelled as a precondition (a requires), except in the Model constructor, where the source returns after it; there the result is None.
- RenderDevice.SelectPhysicalDevice: requires a non-empty device list, because the source reads `devices.back()` of an empty vector in that case.
- Texture.StagingCoversImage: requires width × height × 4 to fit in 32 bits. The source's `int` product is not modelled beyond `ToUint32`.
- ShaderReflection.MembersPacked: requires the total member size to fit in 32 bits.
- ShaderReflection.FromSpirvType: requires a base type its switch handles. Shader.cpp:67-83 has no case for UInt, Boolean, Double and the other base types, so the function falls off its end without a value, which is undefined behaviour with no result to model. ReflectMembers and Reflect inherit the requirement for every uniform-block member, so a `uint` or `bool` member is not modelled.
- ShaderReflection.TypeBytes: requires a kind its switch handles. Shader.cpp:85-95 has no case for Int8 or SampledImage, which is undefined behaviour in the same way.
- SurfaceSelection.ChooseExtent: requires min ≤ max on both axes when the sentinel width is reported, as `std::clamp` does.
- Headers that disagree with their sources: `Image.h`, `Texture.h`, `Mesh.h`, `VertexBuffer.h` and `Application.h` come from other iterations. The model follows the `.cpp` files.
- Texture.TextureTraceBalanced: stated for the corrected construction only. The constructor as written never returns from CreateImageViews (`Texture.ConstructHangsInViewLoop`), so no as-written trace reaches CreateSampler or Destroy.
- Texture.CorrectedTextureLifetime: depends on Image's two corrections as well as the flag on the early return. With Image as written, a decoded texture never finishes construction.

## Findings

| source | as written | input that shows it | evidently intended | confidence | as-written member | corrected member |
|---|---|---|---|---|---|---|
| Rose/src/Rose/Renderer/API/Shader.cpp:191-198 | both outputs are copied from slots whose stage tag defaults to Vertex, so an unwritten pixel slot overwrites the vertex text with "" | a file with only a `#type vertex` section | the vertex text is kept when no pixel section exists | high, not executed | ShaderSource.VertexOnlyFileLosesSource | ShaderSource.ParseShadersCorrected |
| Rose/src/Rose/Renderer/API/Image.cpp:128-148 | the view loop compares against `m_ImageViews.size()` while appending to it, so the bound grows with every step | CreateImageViews(1) | exactly `amount` views created, written into the `amount` slots the resize made | high, not executed | Image.CreateImageViewsNeverExits | Image.CreateImageViewsCorrected |
| Rose/src/Rose/Renderer/Model.cpp:56-60 | a triangle is pushed only when a later vertex starts the next group, so ⌊(n−1)/3⌋ are pushed and the last one is lost whenever n is a positive multiple of three | a mesh with 3 vertices gives no triangles | ⌊n/3⌋ triangles, the last included | high, not executed | Model.OneTriangleMeshIsEmpty | Model.CreateMeshCorrected |
| Rose/src/Rose/Renderer/RendererContext.cpp:129-131 | "ERROR!" is logged when the result equals VK_FALSE, and VK_FALSE and VK_SUCCESS are both 0 | vkCreateInstance returns VK_SUCCESS | log only when creation failed | high, not executed | RendererContext.ErrorLoggedOnlyOnSuccess | RendererContext.LogsInstanceErrorCorrected |
| Rose/src/Rose/Core/Application.cpp:196-205 | the layer vector is never sized before it is filled, and the description is compared instead of the name | required = ["VK_LAYER_KHRONOS_validation"] with that layer reported gives false | true exactly when every required name is reported | high, not executed | Application.CheckValidationLayerSupport | Application.CheckValidationLayerSupportCorrected |
| Rose/src/Rose/Renderer/Shader.cpp:139 | the word vector is built from (cbegin, cbegin), so it is empty | any compiled stage | all compiled words kept | high, not executed | LegacyShader.CompiledWordsDropOutput | LegacyShader.CompiledWordsCorrected |
| Rose/src/Rose/Renderer/Shader.cpp:148 | codeSize is set to the word count, not the byte count | a one-word module is declared 1 byte long | 4 × word count bytes | high, not executed | LegacyShader.CreateModuleInfoUndersized | ShaderPipeline.CreateModuleInfo |
| Rose/src/Rose/Renderer/SwapChain.cpp:161-172 | Destroy never frees the depth image's memory | Init then Destroy leaves the depth memory allocated | every object created in Init is released | medium, not executed | SwapChain.DepthMemoryOutlivesDestroy | SwapChain.CorrectedDestroyBalanced |
| Rose/src/Rose/Renderer/RenderDevice.cpp:166-191 | the fence is created signaled and the submission waits on a semaphore nothing signals, which breaks two vkQueueSubmit rules; the fence wait also returns before the work is done | any flush | an unsignaled fence, no wait semaphore, and destruction only after completion | medium, not executed | RenderDevice.FlushAsWrittenIsInvalid | RenderDevice.FlushCorrectedCompletes |
| Rose/src/Rose/Renderer/API/Image.cpp:32-34 | the allocation AllocateImage returns is dropped, so the bind and the later free use an unassigned handle | any image | bind and free use the returned allocation | high, not executed | Image.AllocationHandleNeverStored | Image.ConstructCorrected |
| Rose/src/Rose/Renderer/API/Texture.cpp:19-25 | a failed load returns with the freed flag false, so the destructor's Destroy dereferences the null image | a file stb_image cannot decode | nothing to release after a failed load | high, not executed | Texture.FailedLoadDestructorDereferencesNull | Texture.CorrectedTextureLifetime |
| Rose/src/Rose/Renderer/API/Texture.cpp:55-56 | CreateImageViews is called with its default amount 1, and that loop never exits, so the constructor never reaches CreateSampler | any file stb_image decodes | one view and the sampler created, and the constructor returns | high, not executed | Texture.ConstructHangsInViewLoop | Texture.ConstructCorrected |
| Rose/src/Rose/Renderer/SwapChain.cpp:31 | the image count is minImageCount + 1 with no clamp to maxImageCount | minImageCount = maxImageCount = 2 | the count clamped to maxImageCount when that is not 0 | medium, not executed | SurfaceSelection.ImageCountExceedsMaximum | SurfaceSelection.ImageCountCorrected |
