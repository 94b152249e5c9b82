/**
 * The fixed tables of generate_data/generate_data.py: the course vocabulary by category
 * (`KNOWLEDGE_GRAPH_BASE`) and the hand-written relation pairs of `build_relation_pairs`
 * (`core_relations`), both in the source's order.
 */
module CourseTables {

  /** `KNOWLEDGE_GRAPH_BASE`: category name and its entity names. */
  const KnowledgeGraphBase: seq<(string, seq<string>)> := [
    ("基础数据结构", [
      "数组", "链表", "栈", "队列", "哈希表", "集合", "映射", "字符串", "单链表", "双向链表", "循环链表", "静态数组", "动态数组",
      "循环队列", "双端队列", "优先队列", "散列表", "开放寻址", "链地址法", "双向队列", "线性表", "线性结构", "非线性结构", "抽象数据类型",
      "数据元素", "数据类型", "数据项", "逻辑结构", "物理结构", "存储结构", "有序表", "无序表", "有序序列", "无序序列", "表头", "表尾",
      "表长", "空表", "链表节点", "头节点", "尾节点", "前驱节点", "后继节点", "指针", "引用", "哈希函数", "冲突解决", "散列文件"
    ]),
    ("树形结构", [
      "树", "二叉树", "二叉搜索树", "AVL树", "红黑树", "B树", "B+树", "完全二叉树", "满二叉树", "平衡二叉树", "字典树", "前缀树",
      "后缀树", "线段树", "树状数组", "堆", "大根堆", "小根堆", "二项堆", "斐波那契堆", "根节点", "叶子节点", "内部节点", "左子树", "右子树",
      "子树", "父节点", "子节点", "树的高度", "树的深度", "树的度", "树的节点", "平衡因子"
    ]),
    ("图结构", [
      "图", "有向图", "无向图", "加权图", "连通图", "强连通图", "弱连通图", "稀疏图", "稠密图", "邻接矩阵", "邻接表", "边表", "十字链表",
      "邻接多重表", "顶点", "边", "路径", "回路", "环", "度", "入度", "出度", "连通分量", "强连通分量", "最小生成树", "生成森林",
      "图的顶点", "图的边", "顶点度数", "边的权重", "边的方向", "非连通图", "最长路径"
    ]),
    ("排序算法", [
      "冒泡排序", "选择排序", "插入排序", "快速排序", "归并排序", "堆排序", "计数排序", "基数排序", "桶排序", "希尔排序", "直接插入排序",
      "二路归并", "多路归并", "外部排序", "内部排序", "稳定排序", "不稳定排序", "比较排序", "非比较排序", "原地排序", "交换排序", "简单排序",
      "排序算法稳定性", "稳定性"
    ]),
    ("查找算法", [
      "线性查找", "二分查找", "插值查找", "指数查找", "哈希查找", "顺序查找", "折半查找", "分块查找", "树表查找", "动态查找", "静态查找",
      "查找成功", "查找失败", "平均查找长度"
    ]),
    ("图算法", [
      "深度优先搜索", "广度优先搜索", "Dijkstra算法", "Floyd算法", "Bellman-Ford算法", "Kruskal算法", "Prim算法", "拓扑排序",
      "关键路径", "最短路径", "单源最短路径", "多源最短路径", "负权边", "负权回路", "AOV网", "AOE网", "迪杰斯特拉算法", "弗洛伊德算法",
      "克鲁斯卡尔算法", "普里姆算法", "AOV 网", "AOE 网"
    ]),
    ("算法设计", [
      "动态规划", "贪心算法", "分治算法", "回溯算法", "分支限界", "递归", "迭代", "记忆化搜索", "状态转移", "最优子结构", "重叠子问题",
      "贪心选择性质", "局部最优", "全局最优", "分治", "贪心", "贪心策略", "回溯法", "动态规划入门", "递归基础", "递推", "迭代法", "穷举法",
      "算法步骤", "算法的可行性", "算法的有穷性", "算法的确定性"
    ]),
    ("复杂度分析", [
      "时间复杂度", "空间复杂度", "最好情况", "最坏情况", "平均情况", "渐近复杂度", "大O记号", "Θ记号", "Ω记号", "递归复杂度", "摊还分析",
      "势能方法", "聚合分析", "会计方法", "操作效率"
    ]),
    ("基本操作", [
      "插入", "删除", "查找", "遍历", "排序", "合并", "分割", "旋转", "平衡", "扩容", "缩容", "初始化", "销毁", "复制", "移动",
      "入栈", "出栈", "入队", "出队", "前序遍历", "中序遍历", "后序遍历", "层序遍历", "访问", "更新", "位序"
    ]),
    ("高级数据结构", [
      "并查集", "跳跃表", "布隆过滤器", "LRU缓存", "LFU缓存", "字典树", "后缀数组", "KMP算法", "AC自动机", "可持久化数据结构",
      "函数式数据结构", "不相交集合", "路径压缩", "按秩合并"
    ]),
    ("存储结构", [
      "顺序存储", "链式存储", "索引存储", "散列存储", "随机访问", "顺序访问", "内存分配", "内存回收", "内存池", "对象池", "引用计数", "垃圾回收",
      "栈内存", "堆内存", "静态内存", "动态内存"
    ])
  ]

  /** `core_relations`: relation type and its candidate (head, tail) pairs. */
  const CoreRelations: seq<(string, seq<(string, string)>)> := [
    ("rely", [
      ("链表", "节点"), ("链表", "头节点"), ("链表", "尾节点"), ("链表", "链表节点"), ("二叉搜索树", "根节点"),
      ("二叉搜索树", "左子树"), ("二叉搜索树", "右子树"), ("二叉搜索树", "叶子节点"), ("哈希表", "哈希函数"), ("哈希表", "冲突解决"),
      ("哈希表", "键值对"), ("图", "顶点"), ("图", "边"), ("图", "邻接表"), ("图", "邻接矩阵"), ("队列", "FIFO"),
      ("栈", "LIFO"), ("数组", "索引"), ("数组", "元素"), ("树", "子节点"), ("树", "根节点"), ("树", "叶子节点"),
      ("树", "深度"), ("树", "高度"), ("树", "度"), ("B树", "多路搜索"), ("AVL树", "平衡因子"), ("红黑树", "颜色属性"),
      ("堆", "大根堆"), ("堆", "小根堆"), ("堆", "堆化"), ("哈希表", "链地址法"), ("哈希表", "开放寻址"), ("排序算法", "时间复杂度"),
      ("排序算法", "空间复杂度"), ("排序算法", "稳定性"), ("排序算法", "比较排序"), ("排序算法", "非比较排序"), ("排序算法", "内部排序"),
      ("排序算法", "外部排序"), ("排序算法", "原地排序"), ("二叉树", "完全二叉树"), ("二叉树", "满二叉树"), ("线性表", "顺序存储"),
      ("线性表", "链式存储"), ("图", "有向图"), ("图", "无向图"), ("图", "加权图"), ("图", "稀疏图"), ("图", "稠密图"),
      ("图", "连通图"), ("图", "非连通图"), ("图", "强连通图"), ("图", "弱连通图"), ("图", "强连通分量"), ("图", "连通分量"),
      ("图", "边的方向"), ("图", "顶点度数"), ("图", "边的权重"), ("路径", "最长路径"), ("路径", "最短路径"), ("路径", "关键路径"),
      ("路径", "单源最短路径"), ("路径", "多源最短路径"), ("拓扑排序", "AOV网"), ("最小生成树", "Kruskal算法"),
      ("最小生成树", "Prim算法"), ("最短路径", "Dijkstra算法"), ("最短路径", "Floyd算法"), ("最短路径", "Bellman-Ford算法"),
      ("贪心算法", "贪心策略"), ("贪心算法", "贪心选择性质"), ("动态规划", "最优子结构"), ("动态规划", "重叠子问题"), ("动态规划", "状态转移"),
      ("分治", "分治法"), ("分治", "递归"), ("分治", "递推"), ("回溯", "回溯法"), ("回溯", "分支限界"), ("排序", "冒泡排序"),
      ("排序", "选择排序"), ("排序", "插入排序"), ("排序", "快速排序"), ("排序", "归并排序"), ("排序", "堆排序"),
      ("排序", "基数排序"), ("排序", "计数排序"), ("排序", "桶排序"), ("排序", "希尔排序"), ("顺序查找", "查找"),
      ("二分查找", "查找"), ("插值查找", "查找"), ("哈希查找", "查找"), ("二叉搜索树", "查找"), ("B+树", "查找"),
      ("前缀树", "查找"), ("后缀树", "查找"), ("KMP算法", "查找"), ("AC自动机", "查找")
    ]),
    ("b-rely", [
      ("节点", "链表"), ("头节点", "链表"), ("尾节点", "链表"), ("链表节点", "链表"), ("根节点", "二叉搜索树"),
      ("左子树", "二叉搜索树"), ("右子树", "二叉搜索树"), ("叶子节点", "二叉搜索树"), ("哈希函数", "哈希表"), ("冲突解决", "哈希表"),
      ("键值对", "哈希表"), ("顶点", "图"), ("边", "图"), ("邻接表", "图"), ("邻接矩阵", "图"), ("FIFO", "队列"),
      ("LIFO", "栈"), ("索引", "数组"), ("元素", "数组"), ("子节点", "树"), ("根节点", "树"), ("叶子节点", "树"),
      ("深度", "树"), ("高度", "树"), ("度", "树"), ("多路搜索", "B树"), ("平衡因子", "AVL树"), ("颜色属性", "红黑树"),
      ("大根堆", "堆"), ("小根堆", "堆"), ("堆化", "堆"), ("链地址法", "哈希表"), ("开放寻址", "哈希表"), ("时间复杂度", "排序算法"),
      ("空间复杂度", "排序算法"), ("稳定性", "排序算法"), ("比较排序", "排序算法"), ("非比较排序", "排序算法"), ("内部排序", "排序算法"),
      ("外部排序", "排序算法"), ("原地排序", "排序算法"), ("完全二叉树", "二叉树"), ("满二叉树", "二叉树"), ("顺序存储", "线性表"),
      ("链式存储", "线性表"), ("有向图", "图"), ("无向图", "图"), ("加权图", "图"), ("稀疏图", "图"), ("稠密图", "图"),
      ("连通图", "图"), ("非连通图", "图"), ("强连通图", "图"), ("弱连通图", "图"), ("强连通分量", "图"), ("连通分量", "图"),
      ("边的方向", "图"), ("顶点度数", "图"), ("边的权重", "图"), ("最长路径", "路径"), ("最短路径", "路径"), ("关键路径", "路径"),
      ("单源最短路径", "路径"), ("多源最短路径", "路径"), ("AOV网", "拓扑排序"), ("Kruskal算法", "最小生成树"),
      ("Prim算法", "最小生成树"), ("Dijkstra算法", "最短路径"), ("Floyd算法", "最短路径"), ("Bellman-Ford算法", "最短路径"),
      ("贪心策略", "贪心算法"), ("贪心选择性质", "贪心算法"), ("最优子结构", "动态规划"), ("重叠子问题", "动态规划"), ("状态转移", "动态规划"),
      ("分治法", "分治"), ("递归", "分治"), ("递推", "分治"), ("回溯法", "回溯"), ("分支限界", "回溯"), ("冒泡排序", "排序"),
      ("选择排序", "排序"), ("插入排序", "排序"), ("快速排序", "排序"), ("归并排序", "排序"), ("堆排序", "排序"),
      ("基数排序", "排序"), ("计数排序", "排序"), ("桶排序", "排序"), ("希尔排序", "排序"), ("顺序查找", "查找"),
      ("二分查找", "查找"), ("插值查找", "查找"), ("哈希查找", "查找"), ("二叉搜索树", "查找"), ("B+树", "查找"),
      ("前缀树", "查找"), ("后缀树", "查找"), ("KMP算法", "查找"), ("AC自动机", "查找")
    ]),
    ("belg", [
      ("链表", "线性结构"), ("栈", "线性结构"), ("队列", "线性结构"), ("哈希表", "非线性结构"), ("数组", "线性结构"),
      ("树", "非线性结构"), ("图", "非线性结构"), ("排序算法", "算法设计"), ("查找算法", "算法设计"), ("图算法", "算法设计"),
      ("动态规划", "算法设计"), ("贪心算法", "算法设计"), ("分治算法", "算法设计"), ("回溯算法", "算法设计"), ("复杂度分析", "算法设计"),
      ("基本操作", "数据结构操作")
    ]),
    ("b-belg", [
      ("线性结构", "链表"), ("线性结构", "栈"), ("线性结构", "队列"), ("线性结构", "数组"), ("非线性结构", "哈希表"),
      ("非线性结构", "树"), ("非线性结构", "图"), ("算法设计", "排序算法"), ("算法设计", "查找算法"), ("算法设计", "图算法"),
      ("算法设计", "动态规划"), ("算法设计", "贪心算法"), ("算法设计", "分治算法"), ("算法设计", "回溯算法"), ("算法设计", "复杂度分析"),
      ("数据结构操作", "基本操作")
    ]),
    ("attr", [
      ("数组", "随机访问"), ("链表", "顺序访问"), ("栈", "后进先出"), ("队列", "先进先出"), ("哈希表", "O(1)平均访问时间"),
      ("图", "顶点和边"), ("树", "层次结构"), ("排序算法", "时间复杂度"), ("排序算法", "空间复杂度"), ("排序算法", "稳定性"),
      ("查找算法", "平均查找长度"), ("Dijkstra算法", "单源最短路径"), ("Prim算法", "最小生成树")
    ]),
    ("b-attr", [
      ("随机访问", "数组"), ("顺序访问", "链表"), ("后进先出", "栈"), ("先进先出", "队列"), ("O(1)平均访问时间", "哈希表"),
      ("顶点和边", "图"), ("层次结构", "树"), ("时间复杂度", "排序算法"), ("空间复杂度", "排序算法"), ("稳定性", "排序算法"),
      ("平均查找长度", "查找算法"), ("单源最短路径", "Dijkstra算法"), ("最小生成树", "Prim算法")
    ]),
    ("syno", [
      ("栈", "LIFO"), ("队列", "FIFO"), ("哈希表", "散列表"), ("平衡二叉树", "AVL树"), ("深度优先搜索", "DFS"),
      ("广度优先搜索", "BFS"), ("顺序存储", "数组存储"), ("链式存储", "指针存储"), ("二叉树", "二叉搜索树"), ("堆", "优先队列")
    ]),
    ("anto", [
      ("栈", "队列"), ("数组", "链表"), ("有向图", "无向图"), ("大根堆", "小根堆"), ("深度优先搜索", "广度优先搜索"),
      ("最小生成树", "最大生成树"), ("二叉搜索树", "平衡二叉树"), ("哈希表", "二叉搜索树"), ("排序", "查找"), ("最坏情况", "最好情况"),
      ("平均情况", "最坏情况")
    ])
  ]
}
